/** The outbound side of the scraper: header maps, the GET requests it
    issues, the catalog's answers, and the user-agent rotation that both
    `ShikiParser` and `Manga` perform before fetching. */
module Http {
  import opened Wrappers

  type Headers = map<string, string>

  const UserAgentKey := "User-Agent"

  /** Both classes start from `{'User-Agent': ''}`. */
  const InitialHeaders: Headers := map[UserAgentKey := ""]

  /** One entry of the user-agent pool file; only its 'user-agent' field is
      read. */
  datatype UserAgentEntry = UserAgentEntry(userAgent: string)

  /** One GET request as the scraper issues it. */
  datatype Request = Request(url: string, headers: Headers)

  /** The body the catalog answers to a GET of a URL with these headers. */
  type Server = (string, Headers) -> string

  /** `change_user_agent`: the 'user-agent' field of the pool entry at the
      drawn index replaces the header; an empty pool makes the draw
      `randint(0, -1)` raise. `pick` is the value the draw returned. */
  function WithUserAgent(headers: Headers, pool: seq<UserAgentEntry>, pick: nat): (r: Result<Headers, PyException>)
    requires |pool| == 0 || pick < |pool|
    ensures r.Failure? <==> |pool| == 0
    ensures r.Failure? ==> r.error == ValueError
    ensures r.Success? ==> UserAgentKey in r.value && exists k :: 0 <= k < |pool| && r.value[UserAgentKey] == pool[k].userAgent
    ensures r.Success? ==> forall key :: key != UserAgentKey ==> (key in r.value <==> key in headers)
    ensures r.Success? ==> forall key :: key != UserAgentKey && key in headers ==> r.value[key] == headers[key]
  {
    if |pool| == 0 then Failure(ValueError) else Success(headers[UserAgentKey := pool[pick].userAgent])
  }

  /** Every agent of the pool can be drawn, and two draws of different
      agents give different headers. */
  lemma RotationReachesEveryAgent(headers: Headers, pool: seq<UserAgentEntry>, i: nat, j: nat)
    requires i < |pool| && j < |pool|
    ensures WithUserAgent(headers, pool, i).Success?
    ensures WithUserAgent(headers, pool, i).value[UserAgentKey] == pool[i].userAgent
    ensures pool[i].userAgent != pool[j].userAgent ==> WithUserAgent(headers, pool, i) != WithUserAgent(headers, pool, j)
  {
    if pool[i].userAgent != pool[j].userAgent {
      assert WithUserAgent(headers, pool, i).value[UserAgentKey] != WithUserAgent(headers, pool, j).value[UserAgentKey];
    }
  }
}
