/** `ShikiParser` (ShikiParser/Parser.py): validates a title, builds the
    catalog's search URL, fetches it with a rotated user agent, decides from
    the shape of the answer whether it is already the title page, a result
    list to follow, or a miss, and loads the title page. The pure part states
    every step and the whole resolution as functions; the class performs
    them in the order the Python method does. */
module Parser {
  import opened Wrappers
  import opened PyStr
  import opened Document
  import opened Http
  import opened ParserErrors
  import opened TitleValidator
  import opened MangaPage

  const MainUrl := "https://shikimori.one"
  const AnimeSearchPath := "/animes/order-by/aired_on?search="
  const MangaSearchPath := "/mangas?search="

  /** `find('a', {'class': 'title'})`: a link in a result list. */
  const TitleLinkQuery := Query("a", Some("title"))

  /** `title.lower().replace(' ', '+')`: the same length as the title, no
      space left, `+` exactly where the title had a space or a `+`, and every
      other character lowered. Tabs and other whitespace stay as they are and
      nothing is percent-encoded. */
  function SearchPattern(title: string): (p: string)
    ensures |p| == |title|
    ensures forall i :: 0 <= i < |p| ==> p[i] != ' '
    ensures forall i :: 0 <= i < |p| ==> (p[i] == '+' <==> title[i] == ' ' || title[i] == '+')
    ensures forall i :: 0 <= i < |p| && title[i] != ' ' ==> p[i] == LowerChar(title[i])
  {
    ReplaceChar(Lower(title), ' ', '+')
  }

  /** For a valid title, `+` marks exactly its spaces, and turning each `+`
      back into a space (form decoding) gives the lowered title. */
  lemma ValidTitlePattern(title: string)
    requires IsTitleValid(title)
    ensures forall i :: 0 <= i < |title| ==> (SearchPattern(title)[i] == '+' <==> title[i] == ' ')
    ensures ReplaceChar(SearchPattern(title), '+', ' ') == Lower(title)
  {
    PatternIffWellSpaced(title);
    assert forall i :: 0 <= i < |title| ==> title[i] != '+';
    var p := SearchPattern(title);
    assert forall i :: 0 <= i < |title| ==> ReplaceChar(p, '+', ' ')[i] == Lower(title)[i];
  }

  /** `get_search_url(search_pattern, is_anime)`: the site, then the anime
      or the manga search path, then the pattern unchanged. */
  function SearchUrl(pattern: string, isAnime: bool): (url: string)
    ensures StartsWith(url, MainUrl)
    ensures EndsWith(url, pattern)
  {
    var url := MainUrl + (if isAnime then AnimeSearchPath else MangaSearchPath) + pattern;
    assert url[..|MainUrl|] == MainUrl;
    assert url[|url| - |pattern|..] == pattern;
    url
  }

  /** Reads the kind of search and the pattern back from a search URL. */
  function ParseSearchUrl(url: string): Option<(bool, string)> {
    if StartsWith(url, MainUrl + AnimeSearchPath) then Some((true, url[|MainUrl + AnimeSearchPath|..]))
    else if StartsWith(url, MainUrl + MangaSearchPath) then Some((false, url[|MainUrl + MangaSearchPath|..]))
    else None
  }

  /** The search URL determines the kind of search and the pattern. */
  lemma SearchUrlRoundTrip(pattern: string, isAnime: bool)
    ensures ParseSearchUrl(SearchUrl(pattern, isAnime)) == Some((isAnime, pattern))
  {
    var url := SearchUrl(pattern, isAnime);
    if isAnime {
      assert url[..|MainUrl + AnimeSearchPath|] == MainUrl + AnimeSearchPath;
      assert url[|MainUrl + AnimeSearchPath|..] == pattern;
    } else {
      assert url[|MainUrl| + 1] == 'm';
      assert (MainUrl + AnimeSearchPath)[|MainUrl| + 1] == 'a';
      assert url[..|MainUrl + MangaSearchPath|] == MainUrl + MangaSearchPath;
      assert url[|MainUrl + MangaSearchPath|..] == pattern;
    }
  }

  /** `is_already_title(soup, title)`: whether the lowered title occurs in
      the lowered text of the first heading; reading the text of a missing
      heading raises AttributeError. */
  function IsAlreadyTitle(doc: Doc, title: string): (r: Result<bool, PyException>)
    ensures r.Failure? <==> forall i :: 0 <= i < |doc| ==> !Matches(doc[i], HeadingQuery)
    ensures r.Failure? ==> r.error == AttributeError
    ensures r.Success? ==> exists h :: (IsFirst(doc, HeadingQuery, h) &&
      (r.value <==> exists i :: OccursAt(Lower(doc[h].text), Lower(title), i)))
  {
    FindIsFirst(doc, HeadingQuery);
    var heading := Find(doc, HeadingQuery);
    if heading.None? then Failure(AttributeError)
    else Success(IndexOf(Lower(heading.value.text), Lower(title)) != -1)
  }

  /** How the answer to a search is read (lines 38-44). */
  datatype Decision =
    | NotFound            // TitleNotFoundError is raised
    | AlreadyTitle        // the answer is the title page itself
    | FollowLink(href: string)  // the first result link is loaded
    | Raises(exception: PyException)

  /** The decision taken on a parsed search answer. */
  function Classify(doc: Doc, title: string): Decision {
    var titleTagA := Find(doc, TitleLinkQuery);
    match IsAlreadyTitle(doc, title)
    case Failure(e) => Raises(e)
    case Success(already) =>
      if titleTagA.None? && !already then NotFound
      else if already then AlreadyTitle
      else if "href" in titleTagA.value.attrs then FollowLink(titleTagA.value.attrs["href"])
      else Raises(KeyError("href"))
  }

  /** The three-way decision table: a miss needs both no result link and no
      heading match; a heading match wins even over a result link; otherwise
      the first result link is followed. A page with no heading raises
      whatever else it holds. */
  lemma ClassifyTable(doc: Doc, title: string)
    ensures var d := Classify(doc, title);
      && (d == Raises(AttributeError) <==> forall i :: 0 <= i < |doc| ==> !Matches(doc[i], HeadingQuery))
      && (d == NotFound <==> IsAlreadyTitle(doc, title) == Success(false) && forall i :: 0 <= i < |doc| ==> !Matches(doc[i], TitleLinkQuery))
      && (d == AlreadyTitle <==> IsAlreadyTitle(doc, title) == Success(true))
      && (d.FollowLink? <==> (IsAlreadyTitle(doc, title) == Success(false) &&
            exists i :: IsFirst(doc, TitleLinkQuery, i) && "href" in doc[i].attrs))
      && (d.FollowLink? ==> exists i :: IsFirst(doc, TitleLinkQuery, i) && d.href == doc[i].attrs["href"])
  {
    FindIsFirst(doc, TitleLinkQuery);
    FindIsFirst(doc, HeadingQuery);
    forall i, j | IsFirst(doc, TitleLinkQuery, i) && IsFirst(doc, TitleLinkQuery, j)
      ensures i == j
    {
    }
  }

  /** Why a search failed: one of the parser's own errors, or an exception
      that escapes from the code. */
  datatype Failure = Raised(error: ParserError) | Uncaught(exception: PyException)

  /** The result of a search and the requests it issued, in order. */
  datatype Resolution = Resolution(outcome: Result<TitleRecord, Failure>, requests: seq<Request>)

  /** `Manga(title_url, title_html)` as a value: the requests it issues and
      the record it exposes, or the exception it raises. */
  function LoadTitle(titleUrl: Option<string>, titleHtml: Option<string>, pool: seq<UserAgentEntry>, pick: nat,
                     server: Server, parse: string -> Doc): Resolution
    requires titleHtml.Some? || titleUrl.Some?
    requires pick < |pool|
  {
    var headers := PageHeaders(pool, pick);
    var requests := PageRequests(titleUrl, titleHtml, headers);
    match ExtractRecord(parse(PageSource(titleUrl, titleHtml, headers, server)))
    case Success(record) => Resolution(Success(record), requests)
    case Failure(e) => Resolution(Failure(Uncaught(e)), requests)
  }

  /** What `search_title` does once the search request is decided: fetch
      the answer, classify it, and load the title page it leads to. */
  function Searched(search: Request, title: string, pool: seq<UserAgentEntry>, pagePick: nat,
                    server: Server, parse: string -> Doc): Resolution
    requires pagePick < |pool|
  {
    var html := server(search.url, search.headers);
    match Classify(parse(html), title)
    case NotFound => Resolution(Failure(Raised(TitleNotFoundError(title))), [search])
    case Raises(e) => Resolution(Failure(Uncaught(e)), [search])
    case AlreadyTitle =>
      var page := LoadTitle(None, Some(html), pool, pagePick, server, parse);
      Resolution(page.outcome, [search] + page.requests)
    case FollowLink(href) =>
      var page := LoadTitle(Some(href), None, pool, pagePick, server, parse);
      Resolution(page.outcome, [search] + page.requests)
  }

  /** The `url` attribute of the Manga a search builds: set only when the
      first result link is followed. */
  function SearchedUrl(search: Request, title: string, server: Server, parse: string -> Doc): Option<string> {
    match Classify(parse(server(search.url, search.headers)), title)
    case FollowLink(href) => Some(href)
    case _ => None
  }

  /** `search_title(title, is_anime)` from a parser whose headers are
      `headers`: `searchPick` and `pagePick` are the two user-agent draws
      (the parser's and the new Manga's). */
  function Resolve(headers: Headers, title: string, isAnime: bool := true, pool: seq<UserAgentEntry>, searchPick: nat, pagePick: nat,
                   server: Server, parse: string -> Doc): Resolution
    requires |pool| == 0 || (searchPick < |pool| && pagePick < |pool|)
  {
    if !IsTitleValid(title) then Resolution(Failure(Raised(TitleNameFormatError(title))), [])
    else
      match WithUserAgent(headers, pool, searchPick)
      case Failure(e) => Resolution(Failure(Uncaught(e)), [])
      case Success(searchHeaders) =>
        Searched(Request(SearchUrl(SearchPattern(title), isAnime), searchHeaders), title, pool, pagePick, server, parse)
  }

  /** The search request for a valid title: the search URL of its pattern,
      with the drawn user agent. */
  function SearchRequest(headers: Headers, title: string, isAnime: bool, pool: seq<UserAgentEntry>, searchPick: nat): (search: Request)
    requires searchPick < |pool|
    ensures EndsWith(search.url, SearchPattern(title))
    ensures UserAgentKey in search.headers && search.headers[UserAgentKey] == pool[searchPick].userAgent
  {
    Request(SearchUrl(SearchPattern(title), isAnime), headers[UserAgentKey := pool[searchPick].userAgent])
  }

  /** A valid title with a non-empty pool is searched for with that request. */
  lemma ValidTitleSearches(headers: Headers, title: string, isAnime: bool, pool: seq<UserAgentEntry>, searchPick: nat,
                           pagePick: nat, server: Server, parse: string -> Doc)
    requires searchPick < |pool| && pagePick < |pool|
    requires IsTitleValid(title)
    ensures Resolve(headers, title, isAnime, pool, searchPick, pagePick, server, parse)
         == Searched(SearchRequest(headers, title, isAnime, pool, searchPick), title, pool, pagePick, server, parse)
  {
  }

  /** The headers a new title page is fetched with carry the second draw. */
  lemma PageHeadersAgent(pool: seq<UserAgentEntry>, pick: nat)
    requires pick < |pool|
    ensures UserAgentKey in PageHeaders(pool, pick) && PageHeaders(pool, pick)[UserAgentKey] == pool[pick].userAgent
  {
  }

  /** After the search request at most one more request follows, made with
      the second draw. */
  lemma SearchedRequests(search: Request, title: string, pool: seq<UserAgentEntry>, pagePick: nat,
                         server: Server, parse: string -> Doc)
    requires pagePick < |pool|
    ensures var r := Searched(search, title, pool, pagePick, server, parse);
      && 1 <= |r.requests| <= 2
      && r.requests[0] == search
      && (|r.requests| == 2 ==> r.requests[1].headers == PageHeaders(pool, pagePick))
  {
  }

  /** An invalid title raises TitleNameFormatError carrying that title before
      any request is made. */
  lemma InvalidTitleFailsFirst(headers: Headers, title: string, isAnime: bool, pool: seq<UserAgentEntry>, searchPick: nat,
                               pagePick: nat, server: Server, parse: string -> Doc)
    requires |pool| == 0 || (searchPick < |pool| && pagePick < |pool|)
    requires !IsTitleValid(title)
    ensures Resolve(headers, title, isAnime, pool, searchPick, pagePick, server, parse)
         == Resolution(Failure(Raised(TitleNameFormatError(title))), [])
  {
  }

  /** A valid title is first searched for at the search URL of its pattern,
      with the drawn user agent; at most one more request follows, and it is
      made with the second draw. */
  lemma SearchRequests(headers: Headers, title: string, isAnime: bool, pool: seq<UserAgentEntry>, searchPick: nat,
                       pagePick: nat, server: Server, parse: string -> Doc)
    requires searchPick < |pool| && pagePick < |pool|
    requires IsTitleValid(title)
    ensures var r := Resolve(headers, title, isAnime, pool, searchPick, pagePick, server, parse);
      && 1 <= |r.requests| <= 2
      && r.requests[0] == Request(SearchUrl(SearchPattern(title), isAnime), headers[UserAgentKey := pool[searchPick].userAgent])
      && EndsWith(r.requests[0].url, SearchPattern(title))
      && UserAgentKey in r.requests[0].headers && r.requests[0].headers[UserAgentKey] == pool[searchPick].userAgent
      && (|r.requests| == 2 ==> UserAgentKey in r.requests[1].headers && r.requests[1].headers[UserAgentKey] == pool[pagePick].userAgent)
  {
    var search := SearchRequest(headers, title, isAnime, pool, searchPick);
    ValidTitleSearches(headers, title, isAnime, pool, searchPick, pagePick, server, parse);
    SearchedRequests(search, title, pool, pagePick, server, parse);
    PageHeadersAgent(pool, pagePick);
  }

  /** No result link and no heading match: TitleNotFoundError with the
      requested title, after the one search request. */
  lemma MissRaisesNotFound(headers: Headers, title: string, isAnime: bool, pool: seq<UserAgentEntry>, searchPick: nat,
                           pagePick: nat, server: Server, parse: string -> Doc)
    requires searchPick < |pool| && pagePick < |pool|
    requires IsTitleValid(title)
    requires var search := SearchRequest(headers, title, isAnime, pool, searchPick);
      var doc := parse(server(search.url, search.headers));
      IsAlreadyTitle(doc, title) == Success(false) && forall i :: 0 <= i < |doc| ==> !Matches(doc[i], TitleLinkQuery)
    ensures var r := Resolve(headers, title, isAnime, pool, searchPick, pagePick, server, parse);
      r.outcome == Failure(Raised(TitleNotFoundError(title))) && |r.requests| == 1
  {
    var search := SearchRequest(headers, title, isAnime, pool, searchPick);
    ValidTitleSearches(headers, title, isAnime, pool, searchPick, pagePick, server, parse);
    ClassifyTable(parse(server(search.url, search.headers)), title);
  }

  /** A heading match builds the record from the HTML already fetched, with
      no second request, even when the page also holds a result link. */
  lemma DirectHitUsesSearchPage(headers: Headers, title: string, isAnime: bool, pool: seq<UserAgentEntry>, searchPick: nat,
                                pagePick: nat, server: Server, parse: string -> Doc)
    requires searchPick < |pool| && pagePick < |pool|
    requires IsTitleValid(title)
    requires var search := SearchRequest(headers, title, isAnime, pool, searchPick);
      IsAlreadyTitle(parse(server(search.url, search.headers)), title) == Success(true)
    ensures var search := SearchRequest(headers, title, isAnime, pool, searchPick);
      var doc := parse(server(search.url, search.headers));
      var r := Resolve(headers, title, isAnime, pool, searchPick, pagePick, server, parse);
      && |r.requests| == 1
      && (r.outcome.Success? <==> ExtractRecord(doc).Success?)
      && (r.outcome.Success? ==> r.outcome.value == ExtractRecord(doc).value)
  {
    var search := SearchRequest(headers, title, isAnime, pool, searchPick);
    ValidTitleSearches(headers, title, isAnime, pool, searchPick, pagePick, server, parse);
    ClassifyTable(parse(server(search.url, search.headers)), title);
  }

  /** When the search answer leads to a result link, the second request is
      a GET of that link with the new Manga's headers, and the record is
      read from the page it returns, or its exception is reported. */
  lemma FollowedLinkLoadsPage(headers: Headers, title: string, isAnime: bool, pool: seq<UserAgentEntry>, searchPick: nat,
                              pagePick: nat, server: Server, parse: string -> Doc, href: string)
    requires searchPick < |pool| && pagePick < |pool|
    requires IsTitleValid(title)
    requires var search := SearchRequest(headers, title, isAnime, pool, searchPick);
      Classify(parse(server(search.url, search.headers)), title) == FollowLink(href)
    ensures var search := SearchRequest(headers, title, isAnime, pool, searchPick);
      var r := Resolve(headers, title, isAnime, pool, searchPick, pagePick, server, parse);
      var record := ExtractRecord(parse(server(href, PageHeaders(pool, pagePick))));
      && r.requests == [search, Request(href, PageHeaders(pool, pagePick))]
      && (r.outcome.Success? <==> record.Success?)
      && (r.outcome.Success? ==> r.outcome.value == record.value)
      && (r.outcome.Failure? ==> r.outcome.error == Uncaught(record.error))
  {
    ValidTitleSearches(headers, title, isAnime, pool, searchPick, pagePick, server, parse);
  }

  /** A title reached directly (the catalog redirects a unique match to its
      page) and the same title reached through a result list whose first
      link leads to that page give the same record or the same failure. */
  lemma DirectAndFollowedAgree(headers: Headers, title: string, isAnime: bool, pool: seq<UserAgentEntry>, searchPick: nat,
                               pagePick: nat, direct: Server, listing: Server, parse: string -> Doc)
    requires searchPick < |pool| && pagePick < |pool|
    requires IsTitleValid(title)
    requires var search := SearchRequest(headers, title, isAnime, pool, searchPick);
      && IsAlreadyTitle(parse(direct(search.url, search.headers)), title) == Success(true)
      && Classify(parse(listing(search.url, search.headers)), title).FollowLink?
      && listing(Classify(parse(listing(search.url, search.headers)), title).href, PageHeaders(pool, pagePick))
         == direct(search.url, search.headers)
    ensures Resolve(headers, title, isAnime, pool, searchPick, pagePick, direct, parse).outcome
         == Resolve(headers, title, isAnime, pool, searchPick, pagePick, listing, parse).outcome
  {
    var search := SearchRequest(headers, title, isAnime, pool, searchPick);
    ValidTitleSearches(headers, title, isAnime, pool, searchPick, pagePick, direct, parse);
    ValidTitleSearches(headers, title, isAnime, pool, searchPick, pagePick, listing, parse);
    ClassifyTable(parse(direct(search.url, search.headers)), title);
  }

  class ShikiParser {
    var headers: Headers

    /** `ShikiParser()`: the headers start as `{'User-Agent': ''}`. */
    constructor ()
      ensures headers == InitialHeaders
    {
      headers := InitialHeaders;
    }

    /** `change_user_agent()`: false stands for the ValueError an empty pool
        raises, and then nothing changes. */
    method ChangeUserAgent(pool: seq<UserAgentEntry>, pick: nat) returns (ok: bool)
      requires |pool| == 0 || pick < |pool|
      modifies this`headers
      ensures ok <==> |pool| > 0
      ensures headers == if ok then WithUserAgent(old(headers), pool, pick).value else old(headers)
    {
      var rotated := WithUserAgent(headers, pool, pick);
      ok := rotated.Success?;
      if ok {
        headers := rotated.value;
      }
    }

    /** `search_title(title, is_anime)`. The source returns an `Anime` for an
        anime search; this model builds the `Manga` record either way. */
    method SearchTitle(title: string, isAnime: bool := true, pool: seq<UserAgentEntry>, searchPick: nat, pagePick: nat,
                       server: Server, parse: string -> Doc)
      returns (r: Result<Manga, Failure>, ghost sent: seq<Request>)
      requires |pool| == 0 || (searchPick < |pool| && pagePick < |pool|)
      modifies this`headers
      ensures var spec := Resolve(old(headers), title, isAnime, pool, searchPick, pagePick, server, parse);
        && sent == spec.requests
        && (r.Failure? <==> spec.outcome.Failure?)
        && (r.Failure? ==> r.error == spec.outcome.error)
        && (r.Success? ==> fresh(r.value) && r.value.Record() == spec.outcome.value)
      ensures r.Success? ==>
        (|pool| > 0 && r.value.headers == PageHeaders(pool, pagePick)
         && r.value.url == SearchedUrl(SearchRequest(old(headers), title, isAnime, pool, searchPick), title, server, parse))
      ensures headers == if IsTitleValid(title) && |pool| > 0
                         then old(headers)[UserAgentKey := pool[searchPick].userAgent] else old(headers)
    {
      if !IsTitleValid(title) {
        return Failure(Raised(TitleNameFormatError(title))), [];
      }
      var searchPattern := SearchPattern(title);
      var searchUrl := SearchUrl(searchPattern, isAnime);
      var ok := ChangeUserAgent(pool, searchPick);
      if !ok {
        return Failure(Uncaught(ValueError)), [];
      }
      r, sent := FollowSearch(Request(searchUrl, headers), title, pool, pagePick, server, parse);
    }
  }

  /** The rest of `search_title`, from the search request on: fetch the
      answer, then either raise, or build the title from the answer itself
      or from the first result link. */
  method FollowSearch(search: Request, title: string, pool: seq<UserAgentEntry>, pagePick: nat,
                      server: Server, parse: string -> Doc)
    returns (r: Result<Manga, Failure>, ghost sent: seq<Request>)
    requires pagePick < |pool|
    ensures var spec := Searched(search, title, pool, pagePick, server, parse);
      && sent == spec.requests
      && (r.Failure? <==> spec.outcome.Failure?)
      && (r.Failure? ==> r.error == spec.outcome.error)
      && (r.Success? ==> fresh(r.value) && r.value.Record() == spec.outcome.value)
    ensures r.Success? ==>
      (r.value.headers == PageHeaders(pool, pagePick) && r.value.url == SearchedUrl(search, title, server, parse))
  {
    var titleHtml := server(search.url, search.headers);
    sent := [search];
    var soup := parse(titleHtml);
    var titleTagA := Find(soup, TitleLinkQuery);
    if titleTagA.None? {
      var already := IsAlreadyTitle(soup, title);
      if already.Failure? {
        return Failure(Uncaught(already.error)), sent;
      }
      if !already.value {
        return Failure(Raised(TitleNotFoundError(title))), sent;
      }
    }
    var already := IsAlreadyTitle(soup, title);
    if already.Failure? {
      return Failure(Uncaught(already.error)), sent;
    }
    ghost var pageSent;
    if already.value {
      r, pageSent := NewManga(None, Some(titleHtml), pool, pagePick, server, parse);
    } else if "href" !in titleTagA.value.attrs {
      return Failure(Uncaught(KeyError("href"))), sent;
    } else {
      r, pageSent := NewManga(Some(titleTagA.value.attrs["href"]), None, pool, pagePick, server, parse);
    }
    sent := sent + pageSent;
  }

  /** Constructs a `Manga`, or reports the exception its constructor would
      raise on that page (the page is fetched before the exception). */
  method NewManga(titleUrl: Option<string>, titleHtml: Option<string>, pool: seq<UserAgentEntry>, pick: nat,
                  server: Server, parse: string -> Doc)
    returns (r: Result<Manga, Failure>, ghost sent: seq<Request>)
    requires titleHtml.Some? || titleUrl.Some?
    requires pick < |pool|
    ensures var spec := LoadTitle(titleUrl, titleHtml, pool, pick, server, parse);
      && sent == spec.requests
      && (r.Failure? <==> spec.outcome.Failure?)
      && (r.Failure? ==> r.error == spec.outcome.error)
      && (r.Success? ==> fresh(r.value) && r.value.Record() == spec.outcome.value)
    ensures r.Success? ==>
      (&& r.value.headers == PageHeaders(pool, pick)
       && r.value.url == (if titleHtml.Some? then None else titleUrl)
       && r.value.html == PageSource(titleUrl, titleHtml, PageHeaders(pool, pick), server))
  {
    var headers := PageHeaders(pool, pick);
    sent := PageRequests(titleUrl, titleHtml, headers);
    var record := ExtractRecord(parse(PageSource(titleUrl, titleHtml, headers, server)));
    if record.Failure? {
      return Failure(Uncaught(record.error)), sent;
    }
    var manga := new Manga(titleUrl, titleHtml, pool, pick, server, parse);
    r := Success(manga);
  }
}
