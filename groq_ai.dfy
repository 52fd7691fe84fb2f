/** The generative-backend adapter (modules/groq_ai.py): error
    classification in `_call_ai`, the best-effort decoding shared by
    `analyze_query`, `rank_repositories` and `get_install_steps`, and the
    deterministic fallback each of them returns when decoding fails.

    The backend call itself is an input (`AiCall`), and so is the decoder
    (`loads`, standing for `json.loads`, which returns `None` where Python
    raises `JSONDecodeError`). */
module GroqAi {
  import opened Wrappers
  import opened Text
  import opened JsonValues
  import opened GitHubApi

  // ---------------------------------------------------------------------
  // _call_ai

  /** What the chat-completion call did: there is no client (no API key),
      the model replied with some text, or the client raised. */
  datatype AiCall = NoClient | Replied(content: string) | CallFailed(message: string)

  /** The five sanitised failures of `_call_ai`. */
  datatype AiFailure = NotConfigured | AuthFailure | RateLimit | RequestTimedOut | Unavailable

  /** The message `_call_ai` reports for each. */
  function FailureText(f: AiFailure): string
  {
    match f
    case NotConfigured => "Groq API key not configured"
    case AuthFailure => "API authentication failed. Check your GROQ_API_KEY."
    case RateLimit => "Rate limit reached. Please wait and try again."
    case RequestTimedOut => "Request timed out. Check your connection."
    case Unavailable => "AI service temporarily unavailable."
  }

  /** The text `_call_ai` returns on failure: a one-key JSON object. */
  function ErrorPayload(message: string): string
  {
    "{\"error\": \"" + message + "\"}"
  }

  /** What that text decodes to. */
  function ErrorObject(message: string): Json
  {
    JObj(map["error" := JStr(message)])
  }

  /** A message containing "api_key" contains "key": the first test of the
      classification is subsumed by the second. */
  lemma {:induction false} ApiKeyMentionsKey(s: string)
    ensures Contains(s, "api_key") ==> Contains(s, "key")
    decreases |s|
  {
    if StartsWith(s, "api_key") {
      assert s == s[..4] + "key" + s[7..];
      ContainsInfix(s[..4], "key", s[7..]);
    } else if |s| > 0 {
      ApiKeyMentionsKey(s[1..]);
    }
  }

  /** The sanitised message for an exception of the client: the lowercased
      text is tested for "api_key" or "key", then "rate", then "timeout". */
  function ClassifyAiError(message: string): (r: AiFailure)
    ensures r != NotConfigured
    ensures r == AuthFailure <==> Contains(Lower(message), "key")
    ensures r == RateLimit <==> !Contains(Lower(message), "key") && Contains(Lower(message), "rate")
    ensures r == RequestTimedOut <==>
      !Contains(Lower(message), "key") && !Contains(Lower(message), "rate")
      && Contains(Lower(message), "timeout")
    ensures r == Unavailable <==>
      !(Contains(Lower(message), "key") || Contains(Lower(message), "rate")
        || Contains(Lower(message), "timeout"))
  {
    var m := Lower(message);
    ApiKeyMentionsKey(m);
    if Contains(m, "api_key") || Contains(m, "key") then AuthFailure
    else if Contains(m, "rate") then RateLimit
    else if Contains(m, "timeout") then RequestTimedOut
    else Unavailable
  }

  /** The failure a call that did not reply reports. */
  function FailureOf(call: AiCall): (f: AiFailure)
    requires !call.Replied?
    ensures call.NoClient? <==> f == NotConfigured
    ensures call.CallFailed? ==> f == ClassifyAiError(call.message)
  {
    match call
    case NoClient => NotConfigured
    case CallFailed(message) => ClassifyAiError(message)
  }

  /** `_call_ai`: the reply text, or an error payload that never carries the
      raw exception text. */
  function CallAi(call: AiCall): (r: string)
    ensures call.Replied? ==> r == call.content
    ensures !call.Replied? ==> r == ErrorPayload(FailureText(FailureOf(call)))
    ensures call.CallFailed? ==> r == ErrorPayload(FailureText(ClassifyAiError(call.message)))
  {
    match call
    case Replied(content) => content
    case _ => ErrorPayload(FailureText(FailureOf(call)))
  }

  /** The decoder accepts (as JSON must) every payload `_call_ai` can
      return on failure. */
  predicate ParsesErrorPayloads(loads: Loads)
  {
    forall f: AiFailure :: loads(ErrorPayload(FailureText(f))) == Some(ErrorObject(FailureText(f)))
  }

  // ---------------------------------------------------------------------
  // Fence stripping, shared by the three call sites

  const Fence := "```"

  /** The text handed to `json.loads`: the stripped reply; if it opens a
      fenced block, the text between the first and the second fence, less a
      leading `json` tag. */
  function StripFences(reply: string): string
  {
    CutFence(Strip(reply))
  }

  /** The fence test on the stripped reply. */
  function CutFence(t: string): string
  {
    if StartsWith(t, Fence) then
      var inner := UpTo(t[3..], Fence);
      if StartsWith(inner, "json") then inner[4..] else inner
    else t
  }

  /** Position `j` of `pre + Fence` holds a backtick. */
  predicate TickAt(pre: string, j: nat)
  {
    j >= |pre| || pre[j] == '`'
  }

  /** No fence starts inside `pre` once a fence follows it: no three
      backticks in a row begin at a position of `pre`. */
  predicate FenceFree(pre: string)
  {
    forall i :: 0 <= i < |pre| ==> !(TickAt(pre, i) && TickAt(pre, i + 1) && TickAt(pre, i + 2))
  }

  /** Inside `pre`, a fence starts in `pre + Fence + rest` exactly where
      three backticks of `pre + Fence` begin. */
  lemma FenceAt(pre: string, rest: string, i: nat)
    requires i < |pre|
    ensures StartsWith((pre + Fence + rest)[i..], Fence) <==>
      TickAt(pre, i) && TickAt(pre, i + 1) && TickAt(pre, i + 2)
  {
    var s := pre + Fence + rest;
    assert forall j :: 0 <= j < |pre| + 3 ==> (s[j] == '`' <==> TickAt(pre, j));
    assert s[i..][..3] == [s[i], s[i + 1], s[i + 2]];
  }

  /** Where a fence starts inside `pre`, for every position at once. */
  lemma FencesIn(pre: string, rest: string)
    ensures forall i :: 0 <= i < |pre| ==>
      (StartsWith((pre + Fence + rest)[i..], Fence) <==> TickAt(pre, i) && TickAt(pre, i + 1) && TickAt(pre, i + 2))
  {
    forall i | 0 <= i < |pre|
      ensures StartsWith((pre + Fence + rest)[i..], Fence) <==>
        TickAt(pre, i) && TickAt(pre, i + 1) && TickAt(pre, i + 2)
    {
      FenceAt(pre, rest, i);
    }
  }

  /** The search for the next fence stops no later than the fence after `pre`,
      and no earlier when `pre` is fence-free. */
  lemma UpToFenceFree(pre: string, rest: string)
    requires FenceFree(pre)
    ensures UpTo(pre + Fence + rest, Fence) == pre
  {
    var s := pre + Fence + rest;
    var r := UpTo(s, Fence);
    assert s[|pre|..][..3] == Fence;
    assert s[..|pre|] == pre;
    if |r| < |pre| {
      FenceAt(pre, rest, |r|);
    }
  }

  /** The search for the next fence stops at every fence inside `pre`. */
  lemma UpToFenceStops(pre: string, rest: string)
    requires UpTo(pre + Fence + rest, Fence) == pre
    ensures FenceFree(pre)
  {
    FencesIn(pre, rest);
  }

  /** `split("```")[1]` of a text that opens with a fence is the text `pre`
      up to the next fence exactly when no earlier fence starts in `pre`. */
  lemma UpToFence(pre: string, rest: string)
    ensures UpTo(pre + Fence + rest, Fence) == pre <==> FenceFree(pre)
  {
    if FenceFree(pre) {
      UpToFenceFree(pre, rest);
    }
    if UpTo(pre + Fence + rest, Fence) == pre {
      UpToFenceStops(pre, rest);
    }
  }

  /** Stripping a reply that opens with a fence keeps the fence, and the
      text up to the next fence is what lay between the two. */
  lemma FencedInner(inner: string, rest: string)
    requires FenceFree(inner)
    ensures StartsWith(Strip(Fence + inner + Fence + rest), Fence)
    ensures UpTo(Strip(Fence + inner + Fence + rest)[3..], Fence) == inner
  {
    StripFenced(inner, rest);
    FencedParts(inner, RStrip(rest));
    UpToFenceFree(inner, RStrip(rest));
  }

  /** A fenced text read as its opening fence and what follows it. */
  lemma FencedParts(inner: string, rest: string)
    ensures StartsWith(Fence + inner + Fence + rest, Fence)
    ensures (Fence + inner + Fence + rest)[3..] == inner + Fence + rest
  {
    var t := Fence + inner + Fence + rest;
    assert t[..3] == Fence;
  }

  /** Stripping a reply that opens with a fenced block only trims what
      follows the closing fence. */
  lemma StripFenced(inner: string, rest: string)
    ensures Strip(Fence + inner + Fence + rest) == Fence + inner + Fence + RStrip(rest)
  {
    var x := Fence + inner + Fence;
    var s := x + rest;
    assert s[0] == '`';
    assert LStrip(s) == s;
    RStripAppend(x, rest);
  }

  /** A `json` tag in front of a fence-free body keeps it fence-free. */
  lemma FenceFreeTagged(body: string)
    requires FenceFree(body)
    ensures FenceFree("json" + body)
  {
    var t := "json" + body;
    assert forall j: nat :: j < 4 ==> !TickAt(t, j);
    assert forall j: nat :: 4 <= j ==> (TickAt(t, j) <==> TickAt(body, j - 4));
  }

  /** Whitespace before the reply is stripped before the fence test, so it
      does not change what is decoded. */
  lemma StripFencesLeadingSpace(ws: string, x: string)
    requires AllSpace(ws) && x != [] && !IsSpace(x[0])
    ensures StripFences(ws + x) == StripFences(x)
  {
    LStripSpaces(ws, x);
    LStripSpaces([], x);
    assert [] + x == x;
    assert Strip(ws + x) == Strip(x);
  }

  /** A reply fenced as a `json` block decodes its body, whatever whitespace
      precedes the opening fence and whatever follows the closing one. */
  lemma FencedJsonBlock(ws: string, body: string, rest: string)
    requires AllSpace(ws) && FenceFree(body)
    ensures StripFences(ws + "```json" + body + Fence + rest) == body
  {
    var inner := "json" + body;
    var x := Fence + inner + Fence + rest;
    assert "```json" + body + Fence + rest == x;
    assert ws + "```json" + body + Fence + rest == ws + x;
    StripFencesLeadingSpace(ws, x);
    FenceFreeTagged(body);
    FencedInner(inner, rest);
    assert inner[..4] == "json" && inner[4..] == body;
  }

  /** A reply fenced without a language tag decodes its body. */
  lemma FencedBlock(ws: string, body: string, rest: string)
    requires AllSpace(ws) && FenceFree(body) && !StartsWith(body, "json")
    ensures StripFences(ws + Fence + body + Fence + rest) == body
  {
    var x := Fence + body + Fence + rest;
    assert ws + Fence + body + Fence + rest == ws + x;
    StripFencesLeadingSpace(ws, x);
    FencedInner(body, rest);
  }

  /** Without a closing fence, `split("```")[1]` is everything after the
      opening fence: a `json` block that is never closed decodes its body,
      less surrounding whitespace. */
  lemma UnclosedJsonBlock(ws1: string, body: string, ws2: string)
    requires AllSpace(ws1) && AllSpace(ws2)
    requires body != [] && !IsSpace(body[|body| - 1])
    requires !Contains(body, Fence)
    ensures StripFences(ws1 + "```json" + body + ws2) == body
  {
    var x := "```json" + body;
    assert x[|x| - 1] == body[|body| - 1];
    Regroup(ws1, "```json", body, ws2);
    assert Strip(ws1 + x + ws2) == x by {
      StripSurrounding(ws1, x, ws2);
    }
    assert CutFence(x) == body by {
      UnclosedCut(body);
    }
  }

  lemma Regroup(a: string, b: string, c: string, d: string)
    ensures a + b + c + d == a + (b + c) + d
  {
  }

  /** The fence test on an opening fence that is never closed. */
  lemma UnclosedCut(body: string)
    requires !Contains(body, Fence)
    ensures CutFence("```json" + body) == body
  {
    var x := "```json" + body;
    var inner := "json" + body;
    assert StartsWith(x, Fence) && x[3..] == inner by {
      assert x[..3] == Fence;
    }
    assert UpTo(inner, Fence) == inner by {
      TaggedFence(body);
      UpToWhole(inner);
    }
    assert StartsWith(inner, "json") && inner[4..] == body by {
      assert inner[..4] == "json";
    }
  }

  /** `split("```")[0]` is the whole text unless the text holds a fence. */
  lemma UpToWhole(s: string)
    ensures UpTo(s, Fence) == s || Contains(s, Fence)
  {
    var r := UpTo(s, Fence);
    if r != s {
      assert s == r + Fence + s[|r| + 3..];
      ContainsInfix(r, Fence, s[|r| + 3..]);
    }
  }

  /** A fence after a `json` tag is a fence of the body. */
  lemma TaggedFence(body: string)
    ensures Contains("json" + body, Fence) ==> Contains(body, Fence)
  {
    var t := "json" + body;
    if Contains(t, Fence) {
      assert t[0] == 'j' && t[1..][0] == 's' && t[2..][0] == 'o' && t[3..][0] == 'n';
      assert t[1..][1..] == t[2..] && t[2..][1..] == t[3..] && t[3..][1..] == body;
      assert !StartsWith(t, Fence) && Contains(t[1..], Fence);
      assert !StartsWith(t[1..], Fence) && Contains(t[2..], Fence);
      assert !StartsWith(t[2..], Fence) && Contains(t[3..], Fence);
      assert !StartsWith(t[3..], Fence);
    }
  }

  /** An unfenced reply is decoded as it stands, less surrounding whitespace. */
  lemma UnfencedReply(ws1: string, text: string, ws2: string)
    requires AllSpace(ws1) && AllSpace(ws2)
    requires text != [] && !IsSpace(text[0]) && !IsSpace(text[|text| - 1])
    requires !StartsWith(text, Fence)
    ensures StripFences(ws1 + text + ws2) == text
  {
    StripSurrounding(ws1, text, ws2);
  }

  /** The error payload of `_call_ai` reaches the decoder unchanged. */
  lemma ErrorPayloadUnfenced(message: string)
    ensures StripFences(ErrorPayload(message)) == ErrorPayload(message)
  {
    var p := ErrorPayload(message);
    assert p[0] == '{' && p[|p| - 1] == '}';
    StripVisible(p);
  }

  /** Backend failure is not a decoding failure: the error payload decodes,
      so the caller gets the error object and no fallback. */
  lemma FailedCallDecodes(call: AiCall, loads: Loads)
    requires !call.Replied? && ParsesErrorPayloads(loads)
    ensures loads(StripFences(CallAi(call))) == Some(ErrorObject(FailureText(FailureOf(call))))
  {
    var f := FailureOf(call);
    ErrorPayloadUnfenced(FailureText(f));
    assert CallAi(call) == ErrorPayload(FailureText(f));
    assert loads(ErrorPayload(FailureText(f))) == Some(ErrorObject(FailureText(f)));
  }

  // ---------------------------------------------------------------------
  // analyze_query

  predicate IsSafeChar(c: char)
  {
    IsAlnum(c) || IsSpace(c)
  }

  /** The characters of `q` that are letters, digits or whitespace, in order. */
  function KeepSafe(q: string): (r: string)
    ensures |r| <= |q|
    ensures forall i :: 0 <= i < |r| ==> IsSafeChar(r[i])
    decreases |q|
  {
    if q == [] then []
    else if IsSafeChar(q[0]) then [q[0]] + KeepSafe(q[1..])
    else KeepSafe(q[1..])
  }

  const SafeQueryLimit := 100

  /** The filter distributes over concatenation: each character is kept or
      dropped on its own. */
  lemma {:induction false} KeepSafeAppend(a: string, b: string)
    ensures KeepSafe(a + b) == KeepSafe(a) + KeepSafe(b)
    decreases |a|
  {
    if a != [] {
      assert (a + b)[0] == a[0] && (a + b)[1..] == a[1..] + b;
      KeepSafeAppend(a[1..], b);
    } else {
      assert a + b == b;
    }
  }

  /** Every letter, digit and whitespace character of the query is kept, as
      often as it occurs, and nothing else is. */
  lemma {:induction false} KeepSafeCounts(q: string)
    ensures forall c :: multiset(KeepSafe(q))[c] == if IsSafeChar(c) then multiset(q)[c] else 0
    decreases |q|
  {
    if q != [] {
      KeepSafeCounts(q[1..]);
      assert q == [q[0]] + q[1..];
      assert multiset(q) == multiset([q[0]]) + multiset(q[1..]);
    }
  }

  /** The sanitised query of the fallback profile: the first 100 characters
      the filter keeps. */
  function SafeQuery(q: string): (r: string)
    ensures |r| <= SafeQueryLimit
    ensures |r| == Min(|KeepSafe(q)|, SafeQueryLimit) && r == KeepSafe(q)[..|r|]
    ensures forall i :: 0 <= i < |r| ==> IsSafeChar(r[i])
  {
    Take(KeepSafe(q), SafeQueryLimit)
  }

  /** `a` can be obtained from `b` by deleting characters. */
  predicate IsSubsequence(a: string, b: string)
    decreases |b|
  {
    if a == [] then true
    else if b == [] then false
    else if a[0] == b[0] then IsSubsequence(a[1..], b[1..])
    else IsSubsequence(a, b[1..])
  }

  lemma {:induction false} SafeSubsequenceSkips(a: string, c: char, b: string)
    requires forall i :: 0 <= i < |a| ==> IsSafeChar(a[i])
    requires !IsSafeChar(c) && IsSubsequence(a, b)
    ensures IsSubsequence(a, [c] + b)
  {
    assert ([c] + b)[1..] == b;
  }

  lemma {:induction false} KeepSafeIsSubsequence(q: string)
    ensures IsSubsequence(KeepSafe(q), q)
    decreases |q|
  {
    if q != [] {
      KeepSafeIsSubsequence(q[1..]);
      assert q == [q[0]] + q[1..];
      if !IsSafeChar(q[0]) {
        SafeSubsequenceSkips(KeepSafe(q[1..]), q[0], q[1..]);
      }
    }
  }

  lemma {:induction false} PrefixIsSubsequence(a: string, b: string, k: nat)
    requires IsSubsequence(a, b) && k <= |a|
    ensures IsSubsequence(a[..k], b)
    decreases |b|
  {
    if k > 0 && b != [] {
      if a[0] == b[0] {
        assert a[..k][1..] == a[1..][..k - 1];
        PrefixIsSubsequence(a[1..], b[1..], k - 1);
      } else {
        PrefixIsSubsequence(a, b[1..], k);
      }
    }
  }

  /** The sanitised query is the user's query with characters deleted:
      nothing is reordered, replaced or added. */
  lemma SafeQueryIsSubsequence(q: string)
    ensures IsSubsequence(SafeQuery(q), q)
  {
    KeepSafeIsSubsequence(q);
    PrefixIsSubsequence(KeepSafe(q), q, |SafeQuery(q)|);
  }

  lemma {:induction false} KeepSafeOfSafe(q: string)
    requires forall i :: 0 <= i < |q| ==> IsSafeChar(q[i])
    ensures KeepSafe(q) == q
    decreases |q|
  {
    if q != [] {
      KeepSafeOfSafe(q[1..]);
      assert [q[0]] + q[1..] == q;
    }
  }

  /** Sanitising is idempotent, and leaves a short clean query unchanged. */
  lemma SafeQueryIdempotent(q: string)
    ensures SafeQuery(SafeQuery(q)) == SafeQuery(q)
    ensures (|q| <= SafeQueryLimit && forall i :: 0 <= i < |q| ==> IsSafeChar(q[i]))
      ==> SafeQuery(q) == q
  {
    KeepSafeOfSafe(SafeQuery(q));
    if |q| <= SafeQueryLimit && forall i :: 0 <= i < |q| ==> IsSafeChar(q[i]) {
      KeepSafeOfSafe(q);
    }
  }

  const ProfileKeys := {"domain", "tool_type", "language", "skill_tier", "search_terms", "query_summary"}

  /** The profile `analyze_query` returns when the reply does not decode. */
  function FallbackProfile(q: string): (r: Json)
    ensures r.JObj? && r.fields.Keys == ProfileKeys
    ensures forall k :: k in r.fields ==> r.fields[k].JStr?
    ensures r.fields["domain"] == JStr("general") && r.fields["tool_type"] == JStr("cli")
    ensures r.fields["language"] == JStr("multi") && r.fields["skill_tier"] == JStr("intermediate")
    ensures r.fields["search_terms"] == r.fields["query_summary"] == JStr(SafeQuery(q))
  {
    var safe := JStr(SafeQuery(q));
    JObj(map[
      "domain" := JStr("general"),
      "tool_type" := JStr("cli"),
      "language" := JStr("multi"),
      "skill_tier" := JStr("intermediate"),
      "search_terms" := safe,
      "query_summary" := safe])
  }

  /** `analyze_query`: whatever the reply decodes to, else the fallback. */
  function AnalyzeQuery(query: string, call: AiCall, loads: Loads): (r: Json)
    ensures loads(StripFences(CallAi(call))).None? ==> r == FallbackProfile(query)
    ensures loads(StripFences(CallAi(call))).None? ==>
      r.JObj? && r.fields.Keys == ProfileKeys && r.fields["search_terms"] == JStr(SafeQuery(query))
    ensures loads(StripFences(CallAi(call))).Some? ==> Some(r) == loads(StripFences(CallAi(call)))
  {
    match loads(StripFences(CallAi(call)))
    case Some(j) => j
    case None => FallbackProfile(query)
  }

  /** When the backend fails, `analyze_query` returns the error object, which
      has none of the profile's keys: the fallback profile is not produced. */
  lemma AnalyzeOnFailedCall(query: string, call: AiCall, loads: Loads)
    requires !call.Replied? && ParsesErrorPayloads(loads)
    ensures AnalyzeQuery(query, call, loads) == ErrorObject(FailureText(FailureOf(call)))
    ensures AnalyzeQuery(query, call, loads).fields.Keys !! ProfileKeys
  {
    FailedCallDecodes(call, loads);
    ErrorObjectKeys(FailureText(FailureOf(call)));
  }

  /** The error object's one key, `error`, is not a profile key. */
  lemma ErrorObjectKeys(text: string)
    ensures ErrorObject(text).fields.Keys !! ProfileKeys
  {
    assert ErrorObject(text).fields.Keys == {"error"};
    assert "error" !in ProfileKeys;
  }

  // ---------------------------------------------------------------------
  // rank_repositories: the prompt's repository list

  const PromptLimit := 10
  const PromptDescriptionLimit := 200

  /** One element of `repo_data`: the repository as shown to the model. */
  datatype PromptRepo = PromptRepo(
    index: nat, name: Json, description: string, stars: Json,
    language: Json, updated: string, url: Json)

  /** `repo.get(key, default)` on a string-valued key. */
  function GetText(f: Field<string>, default: string): Json
  {
    match f
    case Absent => JStr(default)
    case Null => JNull
    case Value(s) => JStr(s)
  }

  /** `repo.get(key, default)` on a number-valued key. */
  function GetNumber(f: Field<int>, default: int): Json
  {
    match f
    case Absent => JNum(default)
    case Null => JNull
    case Value(n) => JNum(n)
  }

  /** `repo.get("description", "")[:200] if repo.get("description") else ""`. */
  function PromptDescription(f: Field<string>): (r: string)
    ensures |r| <= PromptDescriptionLimit
    ensures r == "" <==> !(f.Value? && f.value != "")
    ensures f.Value? ==> |r| <= |f.value| && r == f.value[..|r|]
    ensures f.Value? && f.value != "" ==> |r| == Min(|f.value|, PromptDescriptionLimit)
  {
    match f
    case Value(s) => if s != "" then Take(s, PromptDescriptionLimit) else ""
    case _ => ""
  }

  /** The `index`-th element of `repo_data`.  `repo.get("updated_at", "")[:10]`
      raises when the key is present but `null`. */
  function PromptEntry(index: nat, repo: Repo): (r: Result<PromptRepo>)
    ensures r.Ok? <==> !repo.updatedAt.Null?
    ensures r.Ok? ==> r.value.index == index && |r.value.description| <= PromptDescriptionLimit
  {
    match repo.updatedAt
    case Null => Raised
    case Absent => Ok(PromptRecord(index, repo, ""))
    case Value(u) => Ok(PromptRecord(index, repo, Take(u, 10)))
  }

  function PromptRecord(index: nat, repo: Repo, updated: string): (r: PromptRepo)
    ensures r.index == index && |r.description| <= PromptDescriptionLimit
  {
    PromptRepo(index, GetText(repo.fullName, ""), PromptDescription(repo.description),
               GetNumber(repo.stars, 0), GetText(repo.language, "Unknown"), updated,
               GetText(repo.htmlUrl, ""))
  }

  /** A list built by appending `f(position, x)` for each `x` in order, with
      positions counted from 1; an exception stops the loop. */
  function Collect<A, B>(xs: seq<A>, f: (nat, A) -> Result<B>): Result<seq<B>>
    decreases |xs|
  {
    if xs == [] then Ok([])
    else match Collect(xs[..|xs| - 1], f)
      case Raised => Raised
      case Ok(acc) =>
        match f(|xs|, xs[|xs| - 1])
        case Raised => Raised
        case Ok(y) => Ok(acc + [y])
  }

  /** `Collect` succeeds exactly when every element does, and then holds the
      element for position `i + 1` at index `i`. */
  lemma {:induction false} CollectShape<A, B>(xs: seq<A>, f: (nat, A) -> Result<B>)
    ensures Collect(xs, f).Ok? <==> forall i :: 0 <= i < |xs| ==> f(i + 1, xs[i]).Ok?
    ensures Collect(xs, f).Ok? ==>
      |Collect(xs, f).value| == |xs|
      && forall i :: 0 <= i < |xs| ==> Collect(xs, f).value[i] == f(i + 1, xs[i]).value
    decreases |xs|
  {
    if xs != [] {
      var init := xs[..|xs| - 1];
      CollectShape(init, f);
      assert forall i :: 0 <= i < |init| ==> init[i] == xs[i];
    }
  }

  /** One more iteration of the appending loop. */
  lemma CollectStep<A, B>(xs: seq<A>, i: nat, acc: seq<B>, f: (nat, A) -> Result<B>)
    requires i < |xs| && Collect(xs[..i], f) == Ok(acc) && f(i + 1, xs[i]).Ok?
    ensures Collect(xs[..i + 1], f) == Ok(acc + [f(i + 1, xs[i]).value])
  {
    assert xs[..i + 1][..i] == xs[..i];
  }

  /** An element that raises makes the whole loop raise. */
  lemma CollectStops<A, B>(xs: seq<A>, i: nat, f: (nat, A) -> Result<B>)
    requires i < |xs| && f(i + 1, xs[i]).Raised?
    ensures Collect(xs, f).Raised?
  {
    CollectShape(xs, f);
  }

  /** The specification of `repo_data`: at most the first 10 repositories. */
  function RepoData(repos: seq<Repo>): Result<seq<PromptRepo>>
  {
    Collect(Take(repos, PromptLimit), PromptEntry)
  }

  /** `repo_data` has one entry per repository up to 10, indexed from 1 in
      source order, each description cut to 200 characters; it is built
      unless a `null` `updated_at` among them raises. */
  lemma RepoDataShape(repos: seq<Repo>)
    ensures RepoData(repos).Ok? <==>
      forall i :: 0 <= i < Min(|repos|, PromptLimit) ==> !repos[i].updatedAt.Null?
    ensures RepoData(repos).Ok? ==>
      var data := RepoData(repos).value;
      && |data| == Min(|repos|, PromptLimit)
      && forall i :: 0 <= i < |data| ==>
           data[i].index == i + 1
           && data[i].description == PromptDescription(repos[i].description)
           && |data[i].description| <= PromptDescriptionLimit
           && data[i].name == GetText(repos[i].fullName, "")
  {
    var capped := Take(repos, PromptLimit);
    CollectShape(capped, PromptEntry);
    assert forall i :: 0 <= i < |capped| ==> capped[i] == repos[i];
  }

  /** The loop that builds `repo_data`. */
  method PrepareRepoData(repos: seq<Repo>) returns (r: Result<seq<PromptRepo>>)
    ensures r == RepoData(repos)
  {
    var capped := Take(repos, PromptLimit);
    var data: seq<PromptRepo> := [];
    for i := 0 to |capped|
      invariant Collect(capped[..i], PromptEntry) == Ok(data)
    {
      var entry := PromptEntry(i + 1, capped[i]);
      if entry.Raised? {
        CollectStops(capped, i, PromptEntry);
        return Raised;
      }
      CollectStep(capped, i, data, PromptEntry);
      data := data + [entry.value];
    }
    assert capped[..|capped|] == capped;
    return Ok(data);
  }

  // ---------------------------------------------------------------------
  // rank_repositories: the fallback ranking

  const FallbackLimit := 5
  const FallbackNote := "AI analysis unavailable, showing by star count"
  const FallbackRecommendation := "Review each repository manually"

  /** `repo.get("description", "No description")[:100]`; `None` when the key
      is present but `null`, which the slice cannot take. */
  function FallbackSummary(f: Field<string>): (r: Option<string>)
    ensures r.None? <==> f.Null?
    ensures r.Some? ==> |r.value| <= 100
    ensures f.Absent? ==> r == Some("No description")
    ensures f.Value? ==> |r.value| == Min(|f.value|, 100) && r.value == f.value[..|r.value|]
  {
    match f
    case Absent => Some("No description")
    case Null => None
    case Value(s) => Some(Take(s, 100))
  }

  /** `f"{repo.get('stargazers_count', 0)}"`. */
  function StarsText(f: Field<int>): (r: string)
    ensures f.Absent? || (f.Value? && f.value >= 0) ==>
      r != [] && (forall i :: 0 <= i < |r| ==> IsDigit(r[i]))
      && DecimalValue(r) == (if f.Value? then f.value else 0)
      && (r[0] != '0' || r == "0")
    ensures f.Value? && f.value < 0 ==> r != [] && r[0] == '-'
    ensures f.Null? ==> r == "None"
  {
    match f
    case Absent => "0"
    case Null => "None"
    case Value(n) =>
      if n >= 0 then DecimalOfNatToString(n); IntToString(n) else IntToString(n)
  }

  /** The entry for the repository ranked `rank` by the fallback. */
  function FallbackEntry(rank: nat, repo: Repo): (r: Result<Json>)
    ensures r.Ok? <==> !repo.description.Null?
    ensures r.Ok? ==> r.value.JObj? && "rank" in r.value.fields && r.value.fields["rank"] == JNum(rank)
    ensures r.Ok? ==> "name" in r.value.fields && r.value.fields["name"] == GetText(repo.fullName, "Unknown")
    ensures r.Ok? ==> "why" in r.value.fields && r.value.fields["why"] == JStr("Has " + StarsText(repo.stars) + " stars")
    ensures r.Ok? ==> r.value.fields.Keys == {"rank", "name", "url", "language", "summary", "why"}
    ensures r.Ok? ==> r.value.fields["url"] == GetText(repo.htmlUrl, "")
    ensures r.Ok? ==> r.value.fields["language"] == GetText(repo.language, "Unknown")
    ensures r.Ok? ==> r.value.fields["summary"] == JStr(FallbackSummary(repo.description).value)
  {
    match FallbackSummary(repo.description)
    case None => Raised
    case Some(summary) =>
      Ok(JObj(map[
        "rank" := JNum(rank),
        "name" := GetText(repo.fullName, "Unknown"),
        "url" := GetText(repo.htmlUrl, ""),
        "language" := GetText(repo.language, "Unknown"),
        "summary" := JStr(summary),
        "why" := JStr("Has " + StarsText(repo.stars) + " stars")]))
  }

  /** The reply `rank_repositories` substitutes when decoding fails. */
  function FallbackReply(repos: seq<Repo>): Result<Json>
  {
    match Collect(Take(repos, FallbackLimit), FallbackEntry)
    case Raised => Raised
    case Ok(entries) =>
      Ok(JObj(map[
        "ranked_repos" := JArr(entries),
        "notes" := JArr([JStr(FallbackNote)]),
        "recommendation" := JStr(FallbackRecommendation)]))
  }

  /** The fallback ranks the first five repositories in source order with
      ranks exactly 1..k; it is built unless one of them has a `null`
      description. */
  lemma FallbackShape(repos: seq<Repo>)
    ensures FallbackReply(repos).Ok? <==>
      forall i :: 0 <= i < Min(|repos|, FallbackLimit) ==> !repos[i].description.Null?
    ensures FallbackReply(repos).Ok? ==>
      var reply := FallbackReply(repos).value;
      && reply.JObj? && reply.fields.Keys == {"ranked_repos", "notes", "recommendation"}
      && reply.fields["notes"] == JArr([JStr(FallbackNote)])
      && reply.fields["recommendation"] == JStr(FallbackRecommendation)
      && reply.fields["ranked_repos"].JArr?
      && var ranked := reply.fields["ranked_repos"].items;
      && |ranked| == Min(|repos|, FallbackLimit)
      && forall i :: 0 <= i < |ranked| ==>
           Ok(ranked[i]) == FallbackEntry(i + 1, repos[i])
  {
    var capped := Take(repos, FallbackLimit);
    CollectShape(capped, FallbackEntry);
    assert forall i :: 0 <= i < |capped| ==> capped[i] == repos[i];
  }

  /** The loop that builds the fallback ranking; each rank is one more than
      the number of entries already appended. */
  method BuildFallbackRanking(repos: seq<Repo>) returns (r: Result<Json>)
    ensures r == FallbackReply(repos)
  {
    var capped := Take(repos, FallbackLimit);
    var ranked: seq<Json> := [];
    for i := 0 to |capped|
      invariant |ranked| == i
      invariant Collect(capped[..i], FallbackEntry) == Ok(ranked)
    {
      var entry := FallbackEntry(|ranked| + 1, capped[i]);
      if entry.Raised? {
        CollectStops(capped, i, FallbackEntry);
        return Raised;
      }
      CollectStep(capped, i, ranked, FallbackEntry);
      ranked := ranked + [entry.value];
    }
    assert capped[..|capped|] == capped;
    r := Ok(JObj(map[
      "ranked_repos" := JArr(ranked),
      "notes" := JArr([JStr(FallbackNote)]),
      "recommendation" := JStr(FallbackRecommendation)]));
  }

  // ---------------------------------------------------------------------
  // rank_repositories as a whole

  /** The specification of `rank_repositories`: building the prompt may
      raise; then the decoded reply, or else the fallback. */
  function RankReply(repos: seq<Repo>, call: AiCall, loads: Loads): Result<Json>
  {
    if RepoData(repos).Raised? then Raised
    else match loads(StripFences(CallAi(call)))
      case Some(j) => Ok(j)
      case None => FallbackReply(repos)
  }

  method RankRepositories(repos: seq<Repo>, call: AiCall, loads: Loads) returns (r: Result<Json>)
    ensures r == RankReply(repos, call, loads)
  {
    var data := PrepareRepoData(repos);
    if data.Raised? {
      return Raised;
    }
    var text := StripFences(CallAi(call));
    match loads(text)
    case Some(j) => r := Ok(j);
    case None => r := BuildFallbackRanking(repos);
  }

  /** When the backend fails, the reply is the error object: it has no
      `ranked_repos`, so no fallback ranking is produced. */
  lemma RankOnFailedCall(repos: seq<Repo>, call: AiCall, loads: Loads)
    requires !call.Replied? && ParsesErrorPayloads(loads)
    requires RepoData(repos).Ok?
    ensures RankReply(repos, call, loads) == Ok(ErrorObject(FailureText(FailureOf(call))))
    ensures "ranked_repos" !in RankReply(repos, call, loads).value.fields
  {
    FailedCallDecodes(call, loads);
  }

  /** No `updated_at` that `repo_data` slices is `null`: those of the first
      ten repositories. */
  predicate PromptFieldsPresent(repos: seq<Repo>)
  {
    forall i :: 0 <= i < Min(|repos|, PromptLimit) ==> !repos[i].updatedAt.Null?
  }

  /** No description the fallback slices is `null`: those of the first five
      repositories. */
  predicate SummaryFieldsPresent(repos: seq<Repo>)
  {
    forall i :: 0 <= i < Min(|repos|, FallbackLimit) ==> !repos[i].description.Null?
  }

  /** When the reply does not decode, `rank_repositories` returns the
      fallback ranking unless a `null` it slices raises; the ranking has at
      least one entry for a non-empty repository list. */
  lemma RankOnUndecodableReply(repos: seq<Repo>, call: AiCall, loads: Loads)
    requires loads(StripFences(CallAi(call))).None?
    ensures RankReply(repos, call, loads).Ok? <==> PromptFieldsPresent(repos) && SummaryFieldsPresent(repos)
    ensures RankReply(repos, call, loads).Ok? ==>
      && RankReply(repos, call, loads) == FallbackReply(repos)
      && (repos != [] ==> Truthy(FallbackReply(repos).value.fields["ranked_repos"]))
  {
    RepoDataShape(repos);
    FallbackShape(repos);
  }

  // ---------------------------------------------------------------------
  // get_install_steps

  const ReadmeHint := "# Check README for setup instructions"

  /** The per-language table of the fallback, keyed case-sensitively. */
  const InstallTable: map<string, seq<string>> := map[
    "Python" := ["pip install -r requirements.txt"],
    "Go" := ["go build"],
    "JavaScript" := ["npm install"],
    "TypeScript" := ["npm install", "npm run build"],
    "Rust" := ["cargo build --release"],
    "C" := ["make"],
    "C++" := ["make"]]

  /** `fallbacks.get(language, ["# Check README for setup instructions"])`. */
  function FallbackCommands(language: string): (r: seq<string>)
    ensures 1 <= |r| <= 2
    ensures |r| == 2 <==> language == "TypeScript"
    ensures r == [ReadmeHint] <==> language !in InstallTable
    ensures language in {"C", "C++"} ==> r == ["make"]
  {
    if language in InstallTable then InstallTable[language] else [ReadmeHint]
  }

  function StringList(xs: seq<string>): (r: Json)
    ensures r.JArr? && |r.items| == |xs|
    ensures forall i :: 0 <= i < |xs| ==> r.items[i] == JStr(xs[i])
  {
    JArr(seq(|xs|, i requires 0 <= i < |xs| => JStr(xs[i])))
  }

  /** The fallback for a `language` value from a ranked entry: a string is
      looked up; other scalars are missing keys; a list or an object cannot
      be a dictionary key and raises. */
  function InstallFallback(language: Json): (r: Result<Json>)
    ensures r.Raised? <==> language.JArr? || language.JObj?
    ensures language.JStr? ==> r == Ok(StringList(FallbackCommands(language.s)))
    ensures r.Ok? && !language.JStr? ==> r.value == StringList([ReadmeHint])
  {
    match language
    case JStr(s) => Ok(StringList(FallbackCommands(s)))
    case JArr(_) => Raised
    case JObj(_) => Raised
    case _ => Ok(StringList([ReadmeHint]))
  }

  const ReadmeLimitForPrompt := 1000
  const ReadmeHeader := "\nREADME excerpt:\n"

  /** `f"\nREADME excerpt:\n{readme[:1000]}" if readme else ""`: the README
      context of the prompt, from at most its first 1000 characters. */
  function ReadmeContext(readme: Option<string>): (r: string)
    ensures r == "" <==> readme.None? || readme.value == ""
    ensures r != "" ==>
      StartsWith(r, ReadmeHeader)
      && |r| - |ReadmeHeader| == Min(|readme.value|, ReadmeLimitForPrompt)
      && r[|ReadmeHeader|..] == readme.value[..|r| - |ReadmeHeader|]
  {
    match readme
    case Some(text) =>
      if text != "" then
        var r := ReadmeHeader + Take(text, ReadmeLimitForPrompt);
        assert r[..|ReadmeHeader|] == ReadmeHeader;
        r
      else ""
    case None => ""
  }

  /** The README context depends only on the first 1000 characters. */
  lemma ReadmeContextUsesPrefix(text: string)
    requires text != ""
    ensures ReadmeContext(Some(text)) == ReadmeContext(Some(Take(text, ReadmeLimitForPrompt)))
  {
  }

  /** `get_install_steps`: whatever the reply decodes to, else the table. */
  function GetInstallSteps(language: Json, call: AiCall, loads: Loads): (r: Result<Json>)
    ensures loads(StripFences(CallAi(call))).Some? ==> r == Ok(loads(StripFences(CallAi(call))).value)
    ensures loads(StripFences(CallAi(call))).None? ==> r == InstallFallback(language)
  {
    match loads(StripFences(CallAi(call)))
    case Some(j) => Ok(j)
    case None => InstallFallback(language)
  }

  /** When the reply does not decode, a string language is looked up in the
      table, and a list or an object raises. */
  lemma InstallStepsOnUndecodableReply(language: Json, call: AiCall, loads: Loads)
    requires loads(StripFences(CallAi(call))).None?
    ensures GetInstallSteps(language, call, loads).Raised? <==> language.JArr? || language.JObj?
    ensures language.JStr? ==>
      GetInstallSteps(language, call, loads) == Ok(StringList(FallbackCommands(language.s)))
  {
  }

  /** When the backend fails, `get_install_steps` returns the error object,
      not a command list. */
  lemma InstallStepsOnFailedCall(language: Json, call: AiCall, loads: Loads)
    requires !call.Replied? && ParsesErrorPayloads(loads)
    ensures GetInstallSteps(language, call, loads) == Ok(ErrorObject(FailureText(FailureOf(call))))
  {
    FailedCallDecodes(call, loads);
  }
}
