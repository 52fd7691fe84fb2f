/** The repository source (modules/github_api.py): the shape of a search
    hit, the sanitising classification of request failures in
    `search_repositories`, and the length cap of `get_readme`. */
module GitHubApi {
  import opened Wrappers
  import opened Text

  /** One key of a JSON object from the search service: missing, present
      but `null`, or present with a value.  Python's `repo.get(k, d)` gives
      `d`, `None` and the value respectively. */
  datatype Field<+T> = Absent | Null | Value(value: T)

  /** A search hit (`items[i]` of the search response), with the keys the
      core reads.  Any key may be missing or `null`. */
  datatype Repo = Repo(
    fullName: Field<string>,      // "full_name"
    name: Field<string>,          // "name"
    description: Field<string>,   // "description"
    stars: Field<int>,            // "stargazers_count"
    language: Field<string>,      // "language"
    updatedAt: Field<string>,     // "updated_at"
    htmlUrl: Field<string>,       // "html_url"
    forks: Field<int>             // "forks_count"
  )

  /** What the HTTP request of `search_repositories` did: the service
      answered with a list of hits, or `requests` raised with a message. */
  datatype SearchCall = Responded(items: seq<Repo>) | RequestFailed(message: string)

  /** The four sanitised failures of a search request. */
  datatype RequestError = TimedOut | RateLimited | AuthFailed | ConnectionFailed

  /** The message shown for each; the raw exception text is never shown. */
  function RequestErrorText(e: RequestError): string
  {
    match e
    case TimedOut => "GitHub request timed out. Try again."
    case RateLimited => "GitHub rate limit reached. Wait a moment."
    case AuthFailed => "GitHub authentication failed."
    case ConnectionFailed => "GitHub connection error. Check your internet."
  }

  /** The dictionary `search_repositories` returns: `error` is the key
      "error" when present (as the failure whose message it holds); `items`
      is the key "items". */
  datatype SearchResult = SearchResult(error: Option<RequestError>, items: seq<Repo>)

  /** The maximum length of the README text handed on. */
  const ReadmeLimit := 2000

  /** The sanitised message for a failed request: the exception text is
      lowercased, then tested for "timeout", then "rate" or "403", then
      "401" or "auth"; anything else is a connection error. */
  function ClassifyRequestError(message: string): (r: RequestError)
    ensures Contains(Lower(message), "timeout") <==> r == TimedOut
    ensures r == RateLimited <==>
      !Contains(Lower(message), "timeout")
      && (Contains(Lower(message), "rate") || Contains(Lower(message), "403"))
    ensures r == AuthFailed <==>
      !(Contains(Lower(message), "timeout") || Contains(Lower(message), "rate")
        || Contains(Lower(message), "403"))
      && (Contains(Lower(message), "401") || Contains(Lower(message), "auth"))
    ensures r == ConnectionFailed <==>
      !(Contains(Lower(message), "timeout") || Contains(Lower(message), "rate")
        || Contains(Lower(message), "403") || Contains(Lower(message), "401")
        || Contains(Lower(message), "auth"))
  {
    var m := Lower(message);
    if Contains(m, "timeout") then TimedOut
    else if Contains(m, "rate") || Contains(m, "403") then RateLimited
    else if Contains(m, "401") || Contains(m, "auth") then AuthFailed
    else ConnectionFailed
  }

  /** `search_repositories`: the decoded response, or an error-shaped
      dictionary whose item list is empty. */
  function SearchRepositories(call: SearchCall): (r: SearchResult)
    ensures r.error.Some? <==> call.RequestFailed?
    ensures r.error.Some? ==> r.items == [] && r.error.value == ClassifyRequestError(call.message)
    ensures call.Responded? ==> r.items == call.items
  {
    match call
    case Responded(items) => SearchResult(None, items)
    case RequestFailed(message) => SearchResult(Some(ClassifyRequestError(message)), [])
  }

  /** What the README request did: the decoded README text, or any failure
      (HTTP error, missing content, base64 or UTF-8 decoding error). */
  datatype ReadmeCall = Fetched(content: string) | FetchFailed

  /** `get_readme`: `None` on any failure, otherwise the first 2000
      characters of the README. */
  function GetReadme(call: ReadmeCall): (r: Option<string>)
    ensures r.None? <==> call.FetchFailed?
    ensures r.Some? ==> |r.value| == Min(|call.content|, ReadmeLimit)
    ensures r.Some? ==> r.value == call.content[..|r.value|]
  {
    match call
    case Fetched(content) => Some(Take(content, ReadmeLimit))
    case FetchFailed => None
  }

  // ---------------------------------------------------------------------
  // The classification order and its case-insensitivity.

  /** A message with "timeout" anywhere in it, in any letter case, is a
      time-out, whatever else it says ("403", "rate", "auth"). */
  lemma TimeoutAnywhere(before: string, word: string, after: string)
    requires Lower(word) == "timeout"
    ensures ClassifyRequestError(before + word + after) == TimedOut
  {
    LowerAppend(before + word, after);
    LowerAppend(before, word);
    ContainsInfix(Lower(before), "timeout", Lower(after));
  }

  /** Without "timeout", a "403" anywhere makes the message a rate-limit
      error, even when it also mentions "401" or "auth". */
  lemma ForbiddenIsRateLimit(before: string, after: string)
    requires !Contains(Lower(before + "403" + after), "timeout")
    ensures ClassifyRequestError(before + "403" + after) == RateLimited
  {
    LowerAppend(before + "403", after);
    LowerAppend(before, "403");
    assert Lower("403") == "403";
    ContainsInfix(Lower(before), "403", Lower(after));
  }

  /** Without "timeout", "rate" or "403", a "401" anywhere makes the message
      an authentication error. */
  lemma UnauthorizedIsAuthFailure(before: string, after: string)
    requires var m := Lower(before + "401" + after);
      !Contains(m, "timeout") && !Contains(m, "rate") && !Contains(m, "403")
    ensures ClassifyRequestError(before + "401" + after) == AuthFailed
  {
    LowerAppend(before + "401", after);
    LowerAppend(before, "401");
    assert Lower("401") == "401";
    ContainsInfix(Lower(before), "401", Lower(after));
  }

  /** The classification ignores letter case: an upper-cased message is
      classified as the original. */
  lemma ClassificationIgnoresCase(message: string)
    ensures ClassifyRequestError(Upper(message)) == ClassifyRequestError(message)
  {
    LowerOfUpper(message);
  }
}
