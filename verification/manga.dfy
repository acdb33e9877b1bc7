/** `ShikiParser.Manga`: a title page loaded either from HTML already in hand
    or by fetching the title URL, and the record read off it. The pure part
    states the extraction rules on a parsed page; the class performs them the
    way the Python constructor and property setters do, field by field. */
module MangaPage {
  import opened Wrappers
  import opened Document
  import opened Http

  const PlaceholderImageUrl := "https://www.google.com/url?sa=i&url=https%3A%2F%2F4pda.ru%2Fforum%2Findex.php%3Fshowtopic%3D903970&psig=AOvVaw2K6hTbV197cQPE07_kcg3_&ust=1615993649391000&source=images&cd=vfe&ved=0CAIQjRxqFwoTCICu0M2Lte8CFQAAAAAdAAAAABAI"

  const HeadingQuery := Query("h1", None)
  const ImageQuery := Query("img", None)
  const ScoreQuery := Query("div", Some("score-value"))
  const GenreQuery := Query("span", Some("genre-ru"))
  const SynopsisQuery := Query("div", Some("b-text_with_paragraphs"))

  /** The score property: the integer 0 when the page has no score element,
      otherwise that element's text, kept unparsed. */
  datatype Score = NoScore | ScoreText(text: string)

  /** What a loaded title exposes: its four properties and `synopsis()`. */
  datatype TitleRecord = TitleRecord(name: string, imageUrl: string, score: Score, genres: seq<string>, synopsis: string)

  /** The `image_url` setter applied to the result of `find('img')`. */
  function ImageUrlOf(image: Option<Element>): string
    requires image.Some? ==> "src" in image.value.attrs
  {
    if image.Some? then image.value.attrs["src"] else PlaceholderImageUrl
  }

  /** The `score` setter applied to the result of `find('div', {'class': 'score-value'})`. */
  function ScoreOf(scoreHtml: Option<Element>): Score {
    if scoreHtml.Some? then ScoreText(scoreHtml.value.text) else NoScore
  }

  /** The text of each element, in order. */
  function Texts(found: seq<Element>): seq<string> {
    seq(|found|, i requires 0 <= i < |found| => found[i].text)
  }

  /** `synopsis()`: the text of the first paragraphed body, or ''. */
  function SynopsisOf(doc: Doc): string {
    var synopsis := Find(doc, SynopsisQuery);
    if synopsis.Some? then synopsis.value.text else ""
  }

  /** The record a `Manga` built on this page exposes, or the exception its
      constructor raises: no `h1` fails the name read, and an `img` without
      `src` fails the image read, in that order. */
  function ExtractRecord(doc: Doc): Result<TitleRecord, PyException> {
    var heading := Find(doc, HeadingQuery);
    var image := Find(doc, ImageQuery);
    if heading.None? then Failure(AttributeError)
    else if image.Some? && "src" !in image.value.attrs then Failure(KeyError("src"))
    else Success(TitleRecord(heading.value.text, ImageUrlOf(image), ScoreOf(Find(doc, ScoreQuery)),
                             Texts(FindAll(doc, GenreQuery)), SynopsisOf(doc)))
  }

  /** The page loads exactly when it has a heading and its first image (if
      any) has a source; a page without a heading fails on the name read. */
  lemma ExtractionOutcome(doc: Doc)
    ensures ExtractRecord(doc).Success? <==>
      (exists i :: IsFirst(doc, HeadingQuery, i)) &&
      forall i :: IsFirst(doc, ImageQuery, i) ==> "src" in doc[i].attrs
    ensures ExtractRecord(doc) == Failure(AttributeError) <==> forall i :: 0 <= i < |doc| ==> !Matches(doc[i], HeadingQuery)
  {
    FindIsFirst(doc, HeadingQuery);
    FindIsFirst(doc, ImageQuery);
    FirstIsUnique(doc, ImageQuery);
  }

  /** A loaded page's fields, as `Find` and `FindAll` give them. */
  lemma ExtractedFields(doc: Doc)
    requires ExtractRecord(doc).Success?
    ensures Find(doc, HeadingQuery).Some?
    ensures Find(doc, ImageQuery).Some? ==> "src" in Find(doc, ImageQuery).value.attrs
    ensures ExtractRecord(doc).value == TitleRecord(Find(doc, HeadingQuery).value.text, ImageUrlOf(Find(doc, ImageQuery)),
      ScoreOf(Find(doc, ScoreQuery)), Texts(FindAll(doc, GenreQuery)), SynopsisOf(doc))
  {
  }

  /** The name is the first heading's text; the image is the first image's
      source, or the placeholder when the page has no image. */
  lemma NameAndImageRules(doc: Doc)
    requires ExtractRecord(doc).Success?
    ensures var r := ExtractRecord(doc).value;
      && (exists i :: IsFirst(doc, HeadingQuery, i) && r.name == doc[i].text)
      && ((forall i :: 0 <= i < |doc| ==> !Matches(doc[i], ImageQuery)) ==> r.imageUrl == PlaceholderImageUrl)
      && (forall i :: IsFirst(doc, ImageQuery, i) ==> "src" in doc[i].attrs && r.imageUrl == doc[i].attrs["src"])
  {
    ExtractedFields(doc);
    FindIsFirst(doc, HeadingQuery);
    FindIsFirst(doc, ImageQuery);
    FirstIsUnique(doc, ImageQuery);
  }

  /** The score is the first score element's text, and 0 exactly when there
      is none. */
  lemma ScoreRule(doc: Doc)
    requires ExtractRecord(doc).Success?
    ensures var r := ExtractRecord(doc).value;
      && (r.score == NoScore <==> forall i :: 0 <= i < |doc| ==> !Matches(doc[i], ScoreQuery))
      && (forall i :: IsFirst(doc, ScoreQuery, i) ==> r.score == ScoreText(doc[i].text))
  {
    ExtractedFields(doc);
    FindIsFirst(doc, ScoreQuery);
    FirstIsUnique(doc, ScoreQuery);
  }

  /** The genres are the texts of all genre labels in document order, and
      none exactly when there are none. */
  lemma GenresRule(doc: Doc)
    requires ExtractRecord(doc).Success?
    ensures var r := ExtractRecord(doc).value;
      && |r.genres| == |FindAll(doc, GenreQuery)|
      && (forall k :: 0 <= k < |r.genres| ==> r.genres[k] == FindAll(doc, GenreQuery)[k].text)
      && (r.genres == [] <==> forall i :: 0 <= i < |doc| ==> !Matches(doc[i], GenreQuery))
  {
    ExtractedFields(doc);
    FindAllEmpty(doc, GenreQuery);
  }

  /** The synopsis is the first body text, or '' when there is none. */
  lemma SynopsisRule(doc: Doc)
    requires ExtractRecord(doc).Success?
    ensures var r := ExtractRecord(doc).value;
      && ((forall i :: 0 <= i < |doc| ==> !Matches(doc[i], SynopsisQuery)) ==> r.synopsis == "")
      && (forall i :: IsFirst(doc, SynopsisQuery, i) ==> r.synopsis == doc[i].text)
  {
    ExtractedFields(doc);
    FindIsFirst(doc, SynopsisQuery);
    FirstIsUnique(doc, SynopsisQuery);
  }

  lemma FirstIsUnique(doc: Doc, q: Query)
    ensures forall i, j :: IsFirst(doc, q, i) && IsFirst(doc, q, j) ==> i == j
  {
  }

  /** A page with nothing but a heading loads with every default: the
      placeholder image, score 0, no genres and an empty synopsis. */
  lemma BareHeadingDefaults(heading: Element)
    requires heading.tag == "h1"
    ensures ExtractRecord([heading]) == Success(TitleRecord(heading.text, PlaceholderImageUrl, NoScore, [], ""))
  {
    var doc := [heading];
    assert doc[1..] == [];
    assert FindAll(doc, HeadingQuery) == [heading];
    assert FindAll(doc, ImageQuery) == [];
    assert FindAll(doc, ScoreQuery) == [];
    assert FindAll(doc, GenreQuery) == [];
    assert FindAll(doc, SynopsisQuery) == [];
    assert Find(doc, HeadingQuery) == Some(heading);
    assert Find(doc, ImageQuery) == None;
    assert ImageUrlOf(None) == PlaceholderImageUrl;
    assert ScoreOf(Find(doc, ScoreQuery)) == NoScore;
    assert Texts([]) == [];
    assert SynopsisOf(doc) == "";
  }

  /** The headers a freshly built `Manga` sends: `{'User-Agent': ''}` after
      one rotation. */
  function PageHeaders(pool: seq<UserAgentEntry>, pick: nat): Headers
    requires pick < |pool|
  {
    WithUserAgent(InitialHeaders, pool, pick).value
  }

  /** The HTML the constructor parses: the given HTML when there is one,
      otherwise the answer to a GET of the title URL. */
  function PageSource(titleUrl: Option<string>, titleHtml: Option<string>, headers: Headers, server: Server): string
    requires titleHtml.Some? || titleUrl.Some?
  {
    if titleHtml.Some? then titleHtml.value else server(titleUrl.value, headers)
  }

  /** The requests the constructor issues: none when the HTML is given. */
  function PageRequests(titleUrl: Option<string>, titleHtml: Option<string>, headers: Headers): seq<Request>
    requires titleHtml.Some? || titleUrl.Some?
  {
    if titleHtml.Some? then [] else [Request(titleUrl.value, headers)]
  }

  class Manga {
    var headers: Headers
    /** Set only when the page was fetched. */
    var url: Option<string>
    var html: string
    var soup: Doc
    var name: string
    var imageUrl: string
    var score: Score
    var genres: seq<string>
    /** The GET requests this object has issued. */
    ghost var requests: seq<Request>

    /** `synopsis()`: a lookup in the stored page that changes nothing. */
    function Synopsis(): string
      reads this
    {
      SynopsisOf(soup)
    }

    /** The properties as a value. */
    function Record(): TitleRecord
      reads this
    {
      TitleRecord(name, imageUrl, score, genres, Synopsis())
    }

    /** `Manga(title_url, title_html)`. The source raises when the page has
        no heading or its first image has no source; those pages are excluded
        here and reported by the parser instead. `pick` is the random index
        of the user-agent draw, `server` answers the fetch and `parse` stands
        for BeautifulSoup. */
    constructor (titleUrl: Option<string>, titleHtml: Option<string>, pool: seq<UserAgentEntry>, pick: nat,
                 server: Server, parse: string -> Doc)
      requires titleHtml.Some? || titleUrl.Some?
      requires pick < |pool|
      requires ExtractRecord(parse(PageSource(titleUrl, titleHtml, PageHeaders(pool, pick), server))).Success?
      ensures headers == PageHeaders(pool, pick)
      ensures url == (if titleHtml.Some? then None else titleUrl)
      ensures html == PageSource(titleUrl, titleHtml, headers, server)
      ensures soup == parse(html)
      ensures requests == PageRequests(titleUrl, titleHtml, headers)
      ensures Record() == ExtractRecord(soup).value
    {
      headers, url, requests := InitialHeaders, None, [];
      new;
      var ok := ChangeUserAgent(pool, pick);
      assert headers == PageHeaders(pool, pick);
      LoadPage(titleUrl, titleHtml, server);
      ParsePage(parse);
    }

    /** Parses the stored HTML and reads the properties off the result. */
    method ParsePage(parse: string -> Doc)
      requires ExtractRecord(parse(html)).Success?
      modifies this`soup, this`name, this`imageUrl, this`score, this`genres
      ensures soup == parse(html)
      ensures Record() == ExtractRecord(soup).value
    {
      soup := parse(html);
      ReadProperties();
    }

    /** The page step of the constructor: keep the given HTML, or fetch the
        title URL with the current headers and remember the URL. */
    method LoadPage(titleUrl: Option<string>, titleHtml: Option<string>, server: Server)
      requires titleHtml.Some? || titleUrl.Some?
      requires url.None? && requests == []
      modifies this`url, this`html, this`requests
      ensures url == (if titleHtml.Some? then None else titleUrl)
      ensures html == PageSource(titleUrl, titleHtml, headers, server)
      ensures requests == PageRequests(titleUrl, titleHtml, headers)
    {
      if titleHtml.None? {
        url := titleUrl;
        html := server(titleUrl.value, headers);
        requests := [Request(titleUrl.value, headers)];
      } else {
        html := titleHtml.value;
      }
    }

    /** The rest of the constructor: the name, then the three property
        setters, each fed what BeautifulSoup finds in the stored page. */
    method ReadProperties()
      requires ExtractRecord(soup).Success?
      modifies this`name, this`imageUrl, this`score, this`genres
      ensures Record() == ExtractRecord(soup).value
    {
      ExtractedFields(soup);
      name := Find(soup, HeadingQuery).value.text;
      SetImageUrl(Find(soup, ImageQuery));
      SetScore(Find(soup, ScoreQuery));
      SetGenres(FindAll(soup, GenreQuery));
    }

    /** `change_user_agent()`: false stands for the ValueError an empty pool
        raises, and then nothing changes. */
    method ChangeUserAgent(pool: seq<UserAgentEntry>, pick: nat) returns (ok: bool)
      requires |pool| == 0 || pick < |pool|
      modifies this`headers
      ensures ok <==> |pool| > 0
      ensures headers == if ok then WithUserAgent(old(headers), pool, pick).value else old(headers)
    {
      var rotated := WithUserAgent(headers, pool, pick);
      ok := rotated.Success?;
      if ok {
        headers := rotated.value;
      }
    }

    /** The `image_url` setter: the placeholder first, then the source of the
        image when there is one. */
    method SetImageUrl(imageHtml: Option<Element>)
      requires imageHtml.Some? ==> "src" in imageHtml.value.attrs
      modifies this`imageUrl
      ensures imageUrl == ImageUrlOf(imageHtml)
    {
      imageUrl := PlaceholderImageUrl;
      if imageHtml.Some? {
        imageUrl := imageHtml.value.attrs["src"];
      }
    }

    /** The `score` setter: 0 first, then the element's text when there is
        one. */
    method SetScore(scoreHtml: Option<Element>)
      modifies this`score
      ensures score == ScoreOf(scoreHtml)
    {
      score := NoScore;
      if scoreHtml.Some? {
        score := ScoreText(scoreHtml.value.text);
      }
    }

    /** The `genres` setter: starts from an empty list and appends the text
        of each found element in turn. */
    method SetGenres(found: seq<Element>)
      modifies this`genres
      ensures genres == Texts(found)
    {
      genres := [];
      var i := 0;
      while i < |found|
        invariant 0 <= i <= |found|
        invariant genres == Texts(found[..i])
      {
        assert Texts(found[..i + 1]) == Texts(found[..i]) + [found[i].text];
        genres := genres + [found[i].text];
        i := i + 1;
      }
      assert found[..i] == found;
    }
  }
}
