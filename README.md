# RepoHunter, modelled in Dafny

RepoHunter is an interactive terminal tool. Each line the user types is one
of three things:

- a command: exit, `install -repo "N"`, version, history, clear or help;
- a search description;
- an empty line, which does nothing.

A search turn goes through these stages:

1. The query is recorded in a bounded history.
2. A generative backend extracts a search profile from the query.
3. The GitHub repository search runs with the profile's terms.
4. The backend ranks the hits, and the ranking is kept for later `install` commands.

The model has three parts:

- **The session controller** (`repohunter.py`). Class `Session.RepoHunter` has the three fields the source updates: `searchHistory`, `lastResults` and `lastRanked`.
  - Its methods are `Search`, `Install`, `ShowHistory`, `Run` and `Dispatch`.
  - `Run` has the source's `while` loop as a `while` loop (in `Loop`).
  - Each method is proved against a function of its inputs: `SearchTurn`, `InstallSelection`, `Step` and `Replay`.
  - Everything a turn receives from outside is a parameter: the input line, the backend's replies and the search service's answer.
  - Command classification is `Classify`. It includes a one-pass matcher for the `install\s+-repo\s+"?(\d+)"?` pattern.
- **The generative-backend adapter** (`modules/groq_ai.py`), in module `GroqAi`:
  - the error classification of `_call_ai`;
  - the fence stripping shared by the three call sites;
  - the sanitised fallback profile;
  - the prompt list `repo_data` and the fallback ranking, both built by loops (`PrepareRepoData`, `BuildFallbackRanking`) and proved equal to their specification functions;
  - the per-language install table.
- **The repository search** (`modules/github_api.py`), in module `GitHubApi`: the sanitising classification of request failures and the 2000-character cap of `get_readme`.

Support modules:

- `Text` holds the Python string operations the core uses: `strip`, `lower`, `in`, slicing, `split`, and `str`/`int` of numbers.
- `JsonValues` holds decoded JSON values, Python truthiness and `dict.get`.
- `Wrappers` holds `Option`, and `Result`, which models a raised exception.

Python's `json.loads` is a parameter `loads: string -> Option<Json>`. `None` stands for `JSONDecodeError`. Where a property depends on the error payloads decoding as JSON, it says so with the predicate `ParsesErrorPayloads(loads)`.

## Notable behaviour of the code

- **A search turn can end in the loop's catch-all handler.**
  - The fallback ranking slices each description with `[:100]`. A description that is present but `null` makes it raise `TypeError` (modules/groq_ai.py:172). Only the first five hits are sliced.
  - The prompt list slices `updated_at` with `[:10]`. A `null` `updated_at` among the first ten hits raises too, before the backend is called (modules/groq_ai.py:112).
  - Either exception reaches the handler at repohunter.py:265-267. The model calls this outcome `SearchRaised`.
  - `RankOnUndecodableReply` and `UndecodableRepliesTurn` state both directions: the fallback ranking is stored exactly when those first ten `updated_at` values and first five descriptions are not `null` (`PromptFieldsPresent`, `SummaryFieldsPresent`).
- **A profile need not have the six profile keys.**
  - When the backend fails, `_call_ai` returns an error object that is valid JSON (modules/groq_ai.py:23-24, 48). The decode succeeds, so `analyze_query` returns `{"error": …}`, which has none of the six keys (`AnalyzeOnFailedCall`).
  - The search then falls back to the raw query at repohunter.py:74, not the sanitised one (`BackendDownTurn`).
  - The ranking reply likewise has no `ranked_repos`: the raw results are shown and `last_ranked` keeps its old value.
- **Negative install numbers are searches.**
  - The help text advertises `install -repo "N"` (repohunter.py:274). The pattern at repohunter.py:233 admits only digits, so `install -repo -3` does not match at all.
  - The line is run as a search query (`NegativeSelectionIsQuery`). No "out of range" message is given.

## Model

| member | source | states |
|---|---|---|
| GitHubApi.ClassifyRequestError | modules/github_api.py:58-68 | The exception text is lower-cased first. It is a time-out exactly when it contains "timeout". It is a rate limit exactly when it does not contain "timeout" but contains "rate" or "403". It is an authentication failure exactly when it contains none of those three but "401" or "auth". It is a connection error exactly when it contains none of the five. |
| GitHubApi.SearchRepositories | modules/github_api.py:54-68 | The result carries an error exactly when the request raised. That error is the classified message, and its item list is empty. A response passes its items through unchanged. |
| GitHubApi.GetReadme | modules/github_api.py:103-113 | `None` exactly when fetching or decoding failed. Otherwise it is the README's prefix of length min(len, 2000). |
| GitHubApi.TimeoutAnywhere | modules/github_api.py:60-62 | "timeout" anywhere in the text, in any letter case, gives the time-out message whatever else the text contains. |
| GitHubApi.ForbiddenIsRateLimit | modules/github_api.py:63-64 | Without "timeout", a "403" anywhere gives the rate-limit message, even next to "401" or "auth". |
| GitHubApi.UnauthorizedIsAuthFailure | modules/github_api.py:65-66 | Without "timeout", "rate" or "403", a "401" anywhere gives the authentication message. |
| GitHubApi.ClassificationIgnoresCase | modules/github_api.py:60 | An upper-cased message is classified like the original. |
| GroqAi.ApiKeyMentionsKey | modules/groq_ai.py:40 | A message containing "api_key" contains "key": the first test of the condition is subsumed by the second. |
| GroqAi.ClassifyAiError | modules/groq_ai.py:37-48 | A client exception is never reported as "not configured". On the lower-cased text: an authentication failure exactly when it contains "key"; a rate limit exactly when it does not contain "key" but contains "rate"; a time-out exactly when it contains neither but "timeout"; the generic failure exactly when it contains none of the three. |
| GroqAi.FailureOf | modules/groq_ai.py:23-48 | A call that did not reply reports "not configured" exactly when there is no client; a client exception reports `ClassifyAiError` of its message. |
| GroqAi.CallAi | modules/groq_ai.py:21-48 | The result is the reply text, or the `{"error": msg}` payload with the sanitised message, which for a client exception is `ClassifyAiError` of its text. The raw exception text is never returned. |
| GroqAi.StripFences | modules/groq_ai.py:73-77 | The text handed to `json.loads`: the fence test (`CutFence`) on the stripped reply. Its cases are stated by `FencedJsonBlock`, `FencedBlock`, `UnclosedJsonBlock`, `UnfencedReply` and `ErrorPayloadUnfenced`. |
| GroqAi.CutFence | modules/groq_ai.py:74-77 | The fence test on the stripped reply. Its cases are stated by `FencedInner`, `UnclosedCut` and the lemmas about `StripFences`. |
| GroqAi.FenceAt | modules/groq_ai.py:75 | Inside `pre`, a fence starts in `pre + "```" + rest` exactly where three backticks of `pre + "```"` begin. |
| GroqAi.FencesIn | modules/groq_ai.py:75 | The same, for every position of `pre` at once. |
| GroqAi.UpToFenceFree | modules/groq_ai.py:75 | When `pre` is fence-free, the text before the first fence of `pre + "```" + rest` is `pre`. |
| GroqAi.UpToFenceStops | modules/groq_ai.py:75 | When the text before the first fence is `pre`, no fence starts inside `pre`. |
| GroqAi.UpToFence | modules/groq_ai.py:75 | `split("```")[1]` of a text that opens with a fence is exactly the part `pre` before the next fence, if and only if no three backticks in a row begin inside `pre` (`FenceFree`). Single and double backticks are allowed. |
| GroqAi.FencedInner | modules/groq_ai.py:73-75 | Stripping a reply that opens with a fence keeps the fence. When the text between the fences is fence-free, `split("```")[1]` gives that text. |
| GroqAi.StripFenced | modules/groq_ai.py:73 | Stripping a reply that opens with a fenced block only trims whitespace after the closing fence. |
| GroqAi.FenceFreeTagged | modules/groq_ai.py:76-77 | A `json` tag in front of a fence-free body keeps it fence-free. |
| GroqAi.StripFencesLeadingSpace | modules/groq_ai.py:73-74 | Whitespace before a reply that starts with a visible character is stripped before the fence test, so it does not change what is decoded. |
| GroqAi.FencedJsonBlock | modules/groq_ai.py:73-78 | A reply fenced as a `json` block, whose body is fence-free, is decoded from its body. This holds whatever whitespace precedes the opening fence and whatever follows the closing one. |
| GroqAi.FencedBlock | modules/groq_ai.py:73-78 | A reply fenced without a `json` tag, whose body is fence-free, is decoded from its body, whatever whitespace precedes the opening fence. |
| GroqAi.UnclosedJsonBlock | modules/groq_ai.py:73-78 | A `json` block that is never closed is decoded from everything after its tag, less surrounding whitespace, when the body holds no "```". |
| GroqAi.UnclosedCut | modules/groq_ai.py:74-77 | Without a closing fence, `split("```")[1]` is everything after the opening fence, and the tag is dropped. |
| GroqAi.UpToWhole | modules/groq_ai.py:75 | `split("```")[0]` is the whole text unless the text contains "```". |
| GroqAi.TaggedFence | modules/groq_ai.py:76-77 | A "```" in the tagged text is a "```" of the body. |
| GroqAi.UnfencedReply | modules/groq_ai.py:73-78 | An unfenced reply is decoded as it stands, minus surrounding whitespace. |
| GroqAi.ErrorPayloadUnfenced | modules/groq_ai.py:48 | Fence stripping leaves the error payload unchanged. |
| GroqAi.FailedCallDecodes | modules/groq_ai.py:69-78 | A failed call decodes to the error object, so the decode-failure fallback is not taken. |
| GroqAi.KeepSafe | modules/groq_ai.py:81 | It keeps only letters, digits and whitespace, and is no longer than the query. |
| GroqAi.KeepSafeAppend | modules/groq_ai.py:81 | Filtering a concatenation filters each part. |
| GroqAi.KeepSafeCounts | modules/groq_ai.py:81 | Every letter, digit and whitespace character of the query is kept, as often as it occurs, and no other character is. |
| GroqAi.SafeQuery | modules/groq_ai.py:81 | The sanitised query is the first min(len, 100) characters of the filtered query. Each is a letter, a digit or whitespace. |
| GroqAi.SafeSubsequenceSkips | modules/groq_ai.py:81 | A dropped unsafe character keeps the kept text a subsequence. |
| GroqAi.KeepSafeIsSubsequence | modules/groq_ai.py:81 | The filtered text is an order-preserving subsequence of the query. |
| GroqAi.PrefixIsSubsequence | modules/groq_ai.py:81 | Truncating to 100 characters keeps it a subsequence. |
| GroqAi.SafeQueryIsSubsequence | modules/groq_ai.py:81 | The sanitised query is the user's query with characters deleted. Nothing is reordered, replaced or added. |
| GroqAi.KeepSafeOfSafe | modules/groq_ai.py:81 | Filtering a clean text changes nothing. |
| GroqAi.SafeQueryIdempotent | modules/groq_ai.py:81 | Sanitising twice is sanitising once. A short clean query is left unchanged. |
| GroqAi.FallbackProfile | modules/groq_ai.py:79-89 | Exactly the six profile keys, all strings. domain, tool_type, language and skill_tier are "general", "cli", "multi" and "intermediate". search_terms and query_summary are both the sanitised query. |
| GroqAi.AnalyzeQuery | modules/groq_ai.py:50-89 | An undecodable reply gives exactly `FallbackProfile(query)`: the six keys, the four fixed values, and the sanitised query as search terms and summary. A decodable reply gives whatever it decodes to. |
| GroqAi.AnalyzeOnFailedCall | modules/groq_ai.py:69-78 | On a backend failure `analyze_query` returns the error object, which shares no key with a profile. |
| GroqAi.PromptDescription | modules/groq_ai.py:109 | The prompt description is a prefix of the description. It is empty exactly when the description is missing, `null` or empty. Otherwise its length is min(len, 200). |
| GroqAi.GetText | modules/groq_ai.py:108 | `repo.get(key, default)` on a text field: the default when absent, `null` when `null`, the text otherwise. No contract of its own; used by the entries' contracts. |
| GroqAi.GetNumber | modules/groq_ai.py:110 | `repo.get(key, default)` on a number field, in the same way. No contract of its own. |
| GroqAi.PromptEntry | modules/groq_ai.py:106-114 | An entry is built unless `updated_at` is `null`. It carries the given index and a description of at most 200 characters. |
| GroqAi.PromptRecord | modules/groq_ai.py:106-114 | The record keeps the index and caps the description at 200 characters. |
| GroqAi.CollectShape | modules/groq_ai.py:104-114 | Appending in a loop succeeds exactly when every element does. Element i of the result is the one built for position i + 1. |
| GroqAi.RepoDataShape | modules/groq_ai.py:104-114 | `repo_data` has min(len, 10) entries, indexed 1..k in source order. Each has the capped description and the `full_name` value. It is built exactly when none of those hits has a `null` `updated_at`. |
| GroqAi.RepoData | modules/groq_ai.py:104-114 | The specification of `repo_data`. No contract of its own: `RepoDataShape` states its shape and `PrepareRepoData` is proved equal to it. |
| GroqAi.CollectStep | modules/groq_ai.py:105-114 | One more iteration of an appending loop appends the element built for the next position. |
| GroqAi.CollectStops | modules/groq_ai.py:105-114 | An element that raises makes the whole loop raise. |
| GroqAi.PrepareRepoData | modules/groq_ai.py:104-114 | The loop builds exactly `RepoData`, including its raising case. |
| GroqAi.FallbackSummary | modules/groq_ai.py:172 | The summary is missing (the slice raises) exactly when the description is `null`. It is "No description" when the key is absent. Otherwise it is the description's first min(len, 100) characters. |
| GroqAi.StarsText | modules/groq_ai.py:173 | `str` of the star count: decimal digits whose value is the count, with no leading zero except in "0", when it is absent (0) or non-negative, a minus sign first when negative, "None" when `null`. |
| GroqAi.FallbackEntry | modules/groq_ai.py:167-174 | The entry exists exactly when the description is not `null`. It has exactly the keys rank, name, url, language, summary and why. They hold the given rank, `full_name` or "Unknown", `html_url` or "", `language` or "Unknown", the fallback summary, and "Has {stars} stars". |
| GroqAi.FallbackShape | modules/groq_ai.py:163-179 | The fallback reply has exactly the keys ranked_repos, notes and recommendation. Notes is the fixed advisory and recommendation the fixed message. The ranking is the first min(len, 5) hits in order, ranked 1..k. It is built exactly when none of those has a `null` description. |
| GroqAi.FallbackReply | modules/groq_ai.py:163-179 | The specification of the fallback reply. No contract of its own: `FallbackShape` states its shape and `BuildFallbackRanking` is proved equal to it. |
| GroqAi.BuildFallbackRanking | modules/groq_ai.py:164-179 | The loop, which ranks each entry one past the entries already appended, builds exactly `FallbackReply`. |
| GroqAi.RankRepositories | modules/groq_ai.py:91-179 | The prompt is built first and may raise. Then the decoded reply is returned, or the fallback ranking (`RankReply`). |
| GroqAi.RankReply | modules/groq_ai.py:91-179 | The specification of `rank_repositories`. No contract of its own: `RankRepositories` is proved equal to it, and `RankOnFailedCall` and `RankOnUndecodableReply` state its cases. |
| GroqAi.RankOnFailedCall | modules/groq_ai.py:154-162 | On a backend failure the reply is the error object, with no `ranked_repos`. |
| GroqAi.RankOnUndecodableReply | modules/groq_ai.py:104-179 | With an undecodable reply, `rank_repositories` returns exactly when none of the first ten `updated_at` values and none of the first five descriptions is `null`. It then returns the fallback ranking, which is non-empty when there are hits. |
| GroqAi.FallbackCommands | modules/groq_ai.py:222-231 | The lookup is case-sensitive and gives one or two commands, two exactly for TypeScript. The README hint is given exactly for a language outside the table, and C and C++ give `make`. |
| GroqAi.InstallFallback | modules/groq_ai.py:220-231 | A string language is looked up in the table, and any other scalar gets the README hint. A list or object raises, since it cannot be a key. |
| GroqAi.ReadmeContext | modules/groq_ai.py:193 | The context is empty exactly when there is no README text. Otherwise it is the header followed by the README's first min(len, 1000) characters. |
| GroqAi.ReadmeContextUsesPrefix | modules/groq_ai.py:193 | The context depends only on the README's first 1000 characters. |
| GroqAi.GetInstallSteps | modules/groq_ai.py:181-231 | `get_install_steps`: a decodable reply gives what it decodes to, an undecodable one gives `InstallFallback(language)`, the lookup table. |
| GroqAi.InstallStepsOnUndecodableReply | modules/groq_ai.py:219-231 | With an undecodable reply, a string language gets its table entry, and a list or object language raises. |
| GroqAi.InstallStepsOnFailedCall | modules/groq_ai.py:211-219 | On a backend failure `get_install_steps` returns the error object, not a command list. |
| JsonValues.Get | repohunter.py:74 | `dict.get`: the stored value when the key is present, the default otherwise. |
| Text.Lower | modules/github_api.py:60 | Same length, each character lower-cased. |
| Text.UpTo | modules/groq_ai.py:75 | `split(sep)[0]`: the longest prefix without an occurrence of the separator, ending at the first occurrence or at the end. |
| Text.SplitFirst | repohunter.py:167 | `split("/", 1)`: the first part has no slash, and joining the parts with the slash gives back the text. |
| Text.SplitFirstJoin | repohunter.py:167 | Splitting `owner + "/" + rest` gives back `owner` and `rest` when `owner` has no slash. |
| Text.NatToString | modules/groq_ai.py:173 | `str(n)`: non-empty decimal digits, starting with "0" exactly when n is 0, and then "0" itself. |
| Text.DecimalOfNatToString | repohunter.py:235 | `int(str(n)) == n`. |
| Text.StripSurrounding | modules/ui.py:155 | `strip()` removes exactly the surrounding whitespace. |
| Session.LeadingRun | repohunter.py:233 | The length of the longest prefix whose characters satisfy the test. |
| Session.MatchInstall | repohunter.py:233 | `re.match` of the install pattern. No contract of its own: `InstallPatternMatches` and `MatchInstallShape` state both directions. |
| Session.MatchAfterInstall | repohunter.py:233 | The pattern after "install". No contract of its own: `MatchAfterInstallOf` and `MatchAfterInstallShape` state both directions. |
| Session.Classify | repohunter.py:224-260 | The line is stripped first, then tested in order. Blank exactly when empty. Quit exactly on exit, quit or q in any case. An install exactly when it is neither and the pattern matches, with the matched number. Version, history, clear and help exactly on their words in any case. A search of the stripped text exactly when it is non-empty, does not match the pattern and is no command word. |
| Session.LeadingRunOf | repohunter.py:233 | A run followed by a non-matching character has the run's length. |
| Session.MatchDigitsOf | repohunter.py:233-235 | `(\d+)` takes all leading digits, and `int` gives their value. |
| Session.MatchNumberOf | repohunter.py:233-235 | `"?(\d+)` with or without the quote gives the digits' value. |
| Session.NumberStartsVisible | repohunter.py:233 | The number part begins with a quote or a digit, never with whitespace. |
| Session.MatchAfterRepoOf | repohunter.py:233 | `\s+` consumes the whole whitespace run. |
| Session.MatchAfterInstallOf | repohunter.py:233 | `\s+-repo` matches "-repo" in any case after the whitespace run. |
| Session.MatchInstallOf | repohunter.py:233 | "install" matches in any case at the start of the line. |
| Session.AfterRepoMatches | repohunter.py:233-235 | `\s+"?(\d+)` after "-repo" yields the number. |
| Session.InstallPatternMatches | repohunter.py:233-235 | Every spelling the pattern accepts yields the value of its digits. That is "install" and "-repo" in any case, any whitespace runs, an optional quote and any trailing text. |
| Session.SpaceRun | repohunter.py:233 | The leading whitespace run is all whitespace and splits the text. |
| Session.MatchDigitsShape | repohunter.py:233-235 | When `(\d+)` matches, the text is a non-empty digit run followed by a non-digit or the end, and the value is the run's. |
| Session.MatchNumberShape | repohunter.py:233-235 | When `"?(\d+)` matches, the text is an optional quote, the digits and the rest, and the value is the digits'. |
| Session.MatchAfterRepoShape | repohunter.py:233-235 | When `\s+"?(\d+)` matches, the text is a whitespace run, an optional quote, the digits and the rest. |
| Session.MatchAfterInstallShape | repohunter.py:233-235 | When `\s+-repo\s+"?(\d+)` matches, the text is a whitespace run, "-repo" in any case, a whitespace run, an optional quote, the digits and the rest. |
| Session.MatchInstallShape | repohunter.py:233-235 | The converse of `InstallPatternMatches`: every line the pattern matches is "install" in any case, a whitespace run, "-repo" in any case, a whitespace run, an optional quote, non-empty digits and a rest not starting with a digit. The number is the digits' value. |
| Session.MatchInstallLength | repohunter.py:233 | A line the pattern matches has at least 15 characters. |
| Session.KeywordCommand | repohunter.py:239-260 | Version, history, clear and help exactly on their words in any case, tested in that order. Otherwise a search of the text. |
| Session.KeywordLine | repohunter.py:224-240 | A command word is never empty and never matches the install pattern. |
| Session.ClassifyLongLine | repohunter.py:228-260 | A stripped line longer than every keyword is an install when the pattern matches and a search otherwise. |
| Session.MatchInstallCommand | repohunter.py:233-235 | `install -repo "N"` matches with number N. |
| Session.ClassifyInstallCommand | repohunter.py:233-236 | The command the help text advertises is dispatched as an install of that very number. |
| Session.NegativeSelectionUnmatched | repohunter.py:233 | `install -repo -N` does not match the pattern. |
| Session.NegativeSelectionIsQuery | repohunter.py:233-260 | `install -repo -N` is run as a search query. |
| Session.RecordQuery | repohunter.py:53-55 | The newest entry is the query's first 500 characters. |
| Session.RecordQueryKeepsBound | repohunter.py:53-55 | At most 50 entries of at most 500 characters are kept. Below 50 the query is appended. At 50 the oldest is evicted, the rest keep their order and the length stays 50. |
| Session.Window | repohunter.py:53-55 | The last min(len, 50) elements. |
| Session.RecordQueryWindow | repohunter.py:53-55 | Recording into the last 50 of a list gives the last 50 of the list with the query appended. |
| Session.RankStage | repohunter.py:93-115 | The history and results are untouched. A ranking is stored and shown exactly when the reply is an object with a truthy `ranked_repos`, and it is that `ranked_repos` value. The first five raw hits are shown, with `last_ranked` unchanged, exactly when the reply is an object with a falsy `ranked_repos`. Anything else raises. |
| Session.SearchStage | repohunter.py:77-115 | A GitHub error exactly when the request failed. "No repositories" exactly when the response has no hits. On either the state is unchanged. Non-empty hits are stored in `last_results`. Raw results exactly when ranking gives an object with a falsy `ranked_repos` (`RanksRaw`). A stored ranking exactly when it is truthy (`RanksTruthy`), and it is the rank reply's `ranked_repos`. |
| Session.SearchTurn | repohunter.py:45-115 | The history is recorded first in every outcome. A profile that is not an object raises, and only the history changes. An object profile is searched with its `search_terms`, or the raw query when it has none. Then: a GitHub error exactly when the request failed; "no repositories" exactly when there are no hits; non-empty hits are stored; raw results and a stored ranking exactly as in `SearchStage`, the stored ranking being the rank reply's `ranked_repos`. |
| Session.UnrankedReply | repohunter.py:99-113 | A reply object without `ranked_repos` shows the first five raw hits and changes nothing. |
| Session.GitHubFailureAbortsTurn | repohunter.py:80-82 | A failed request ends the turn with the classified message. Only the history has changed. |
| Session.BackendDownTurn | repohunter.py:59-115 | With the backend down for the whole turn, the raw query is sent to the search. The hits are stored and the first five shown, and `last_ranked` keeps its old value. |
| Session.RankedTurn | repohunter.py:93-115 | A truthy `ranked_repos` is stored in `last_ranked` and shown, after the hits are stored in `last_results`. |
| Session.UndecodableRepliesTurn | repohunter.py:59-115 | With both replies undecodable and hits returned, the search uses the sanitised query and stores the hits. The fallback ranking is stored exactly when none of the first ten `updated_at` values and first five descriptions is `null`. Otherwise the turn raises and `last_ranked` keeps its old value. |
| Session.RaisedRankTurn | repohunter.py:89-93 | When ranking raises after hits were returned, the hits are stored in `last_results`, the history is recorded and `last_ranked` keeps its old value. |
| Session.InstallEntry | repohunter.py:160-184 | Instructions exactly when the entry is an object with a string `name` and the step request does not raise; otherwise the turn raises. Instructions carry that name, its `url` and the steps. A name with a slash fetches the README of (owner, name), split at the first slash, and changes into `name`. A name without one uses no README and changes into the whole name. |
| Session.InstallSelection | repohunter.py:152-184 | "No results" exactly when `last_ranked` is falsy. "Out of range", with the count, exactly when the number is outside 1..len. In range on a list it selects entry n - 1. Only a list yields instructions. |
| Session.PyLen | repohunter.py:156 | `len(x)`: defined exactly for text, lists and objects, and the item count for a list. |
| Session.StepHistory | repohunter.py:220-260 | A line changes the history exactly when it is a search, and then by recording its query. |
| Session.Step | repohunter.py:220-260 | The state change of one input line. No contract of its own: `StepHistory` and `Dispatch` state it. |
| Session.Replay | repohunter.py:220-260 | The state after a list of lines, in order. No contract of its own: `ReplayHistory`, `FreshSessionHistory` and `Loop` state it. |
| Session.StepQuery | repohunter.py:259-260 | A line classified as a search changes the state exactly as its search turn does. |
| Session.WindowStep | repohunter.py:53-55 | One more line extends the last 50 recorded queries as it extends the history. |
| Session.HistoryWindow | repohunter.py:53-55 | The history after any lines is the last 50 of the old history followed by the recorded queries. |
| Session.ReplayHistory | repohunter.py:220-260 | The history depends only on the lines typed, never on the backend answers. |
| Session.FreshSessionHistory | repohunter.py:27-55 | From a fresh session the history is exactly the last 50 recorded queries, oldest first. It holds 50 once 50 or more searches have been made. |
| Session.StepKeepsHistoryValid | repohunter.py:53-55 | No line breaks the history bound. |
| Session.RepoHunter.constructor | repohunter.py:27-31 | A fresh session has empty history, results and ranking. |
| Session.RepoHunter.Search | repohunter.py:45-115 | The new state, the outcome and the terms searched are exactly those of `SearchTurn`. The history bound is kept. |
| Session.RepoHunter.SearchProfiled | repohunter.py:73-115 | The new state and outcome are exactly those of `SearchStage`. |
| Session.RepoHunter.StoreRanking | repohunter.py:93-115 | The new state and outcome are exactly those of `RankStage` on `rank_repositories`' reply. |
| Session.RepoHunter.Install | repohunter.py:145-184 | The outcome is exactly `InstallSelection` on `last_ranked`. Nothing changes. |
| Session.RepoHunter.ShowHistory | repohunter.py:186-194 | The output is empty exactly when there is no history. Otherwise it is the last min(len, 10) entries, oldest first. |
| Session.RepoHunter.Run | repohunter.py:205-267 | Nothing happens without a valid configuration. Otherwise the state is the replay of the lines read. The loop stops right after the first exit line, or at the end of the lines when there is none. |
| Session.RepoHunter.Loop | repohunter.py:220-267 | The state is the replay of the lines read. Reading stops exactly at the first exit line, or reads every line when none is an exit. |
| Session.RepoHunter.Advance | repohunter.py:221-264 | One more line is read and replayed. It stops the loop exactly when it is an exit line. |
| Session.RepoHunter.Dispatch | repohunter.py:221-260 | The new state is exactly `Step` of the line. It quits exactly on an exit line. |
| Session.RepoHunter.SearchLine | repohunter.py:259-260 | A line that is no command is searched: the new state is `Step` of the line. |

## Left out

- Terminal output is not modelled, including the colours, the box drawing and the profile and notes display. Outcomes record what would be shown instead.
- The raw display loop (repohunter.py:102-113) passes `stargazers_count` and `forks_count` to `UI.repository`, which formats them with `{stars:,}` and tests `forks > 0` (modules/ui.py:81-82). A `null` in either raises there. The model reports such a turn as `RawResults`; the state is the same, since the loop handler only continues and nothing is stored after that point.
- After `last_ranked` is stored, the display loop (repohunter.py:116-127) may raise on an odd ranking, for example a string. The model reports such a turn as `RankedResults`. The state effect is the same as the source's, since the loop handler only continues.
- `validate_config` and the configuration module are reduced to the boolean parameter `configValid` of `Run`.
- `clear_screen`, `show_help`, the version banner, `main` and argument parsing are left out. The model's `Dispatch` treats clear, help and version as commands that change nothing.
- `KeyboardInterrupt` and end of input are not modelled: the input is a finite list of lines.
- The network is not modelled: the GitHub and Groq clients, HTTP status codes, time-outs, base64 and UTF-8 decoding. Each request's answer is an input: `SearchCall`, `ReadmeCall` and `AiCall`.
- The JSON grammar is not modelled. `json.loads` is the parameter `loads`, and decoded numbers are integers.
- Prompt texts, `json.dumps` of `repo_data` and the model parameters are left out, since they do not affect the control flow. `repo_data` itself is modelled.
- A `None` message content from the chat client is left out.
- A search response that has no `items` key, or has an `error` key of its own, is not modelled. The response is its item list.
- `Text.Lower`, `Text.IsAlnum` and the install pattern's `\d` and `re.IGNORECASE` are ASCII only. Python's Unicode case mapping, Unicode letters and Unicode digits are not modelled. `Text.IsSpace` follows Python's full `str.isspace` set.
- Session.InstallEntry: a `name` that is a list or an object is treated as raising. Python would test `"/" in` that value instead of raising.
- The history's `pop(0)` and `append` on a Python list become reassignments of a `seq` field. Aliasing of that list is not modelled.
- Error messages are the enumerations `RequestError` and `AiFailure`. `RequestErrorText` and `FailureText` give their exact texts.
