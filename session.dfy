/** The session controller (repohunter.py): command classification, the
    bounded search history, the search turn and the install lookup, and the
    REPL loop that sequences them.  Every backend answer of a turn is an
    input, so each turn's state transition is a function of its inputs. */
module Session {
  import opened Wrappers
  import opened Text
  import opened JsonValues
  import opened GitHubApi
  import opened GroqAi

  // ---------------------------------------------------------------------
  // Command classification

  /** The command an input line stands for. */
  datatype Command =
    | Blank                    // empty line: prompt again
    | Quit                     // exit, quit, q
    | InstallRepo(number: nat) // install -repo "N"
    | ShowVersion              // version, -v, --version
    | ListHistory              // history
    | ClearScreen              // clear, cls
    | ShowHelp                 // help, ?, --help, -h
    | Query(text: string)      // anything else: a search

  const ExitWords := ["exit", "quit", "q"]
  const VersionWords := ["version", "-v", "--version"]
  const ClearWords := ["clear", "cls"]
  const HelpWords := ["help", "?", "--help", "-h"]
  /** Every word that names a command. */
  const Keywords := ["exit", "quit", "q", "version", "-v", "--version", "history",
                     "clear", "cls", "help", "?", "--help", "-h"]

  /** The length of the longest prefix of `s` whose characters satisfy `p`. */
  function LeadingRun(s: string, p: char -> bool): (n: nat)
    ensures n <= |s|
    ensures forall i :: 0 <= i < n ==> p(s[i])
    ensures n < |s| ==> !p(s[n])
    decreases |s|
  {
    if s != [] && p(s[0]) then 1 + LeadingRun(s[1..], p) else 0
  }

  /** `s` starts with the lower-case `word`, ignoring the case of `s`. */
  predicate StartsWithNoCase(s: string, word: string)
  {
    |word| <= |s| && Lower(s[..|word|]) == word
  }

  /** `re.match(r'install\s+-repo\s+"?(\d+)"?', s, re.IGNORECASE)` and
      `int(match.group(1))`: a match anchored at the start of `s` only.
      Neither `\s+` nor `"?` can give back what it took without the next
      token failing, so the match is found in one pass, stage by stage. */
  function MatchInstall(s: string): Option<nat>
  {
    if StartsWithNoCase(s, "install") then MatchAfterInstall(s[7..]) else None
  }

  /** `\s+-repo` and the rest of the pattern. */
  function MatchAfterInstall(a: string): Option<nat>
  {
    var k := LeadingRun(a, IsSpace);
    if k == 0 || !StartsWithNoCase(a[k..], "-repo") then None else MatchAfterRepo(a[k..][5..])
  }

  /** `\s+` and the rest of the pattern. */
  function MatchAfterRepo(b: string): Option<nat>
  {
    var m := LeadingRun(b, IsSpace);
    if m == 0 then None else MatchNumber(b[m..])
  }

  /** `"?(\d+)`: the value of the digits after an optional quote; the
      closing `"?` never fails. */
  function MatchNumber(c: string): Option<nat>
  {
    MatchDigits(if c != [] && c[0] == '"' then c[1..] else c)
  }

  /** `(\d+)`: the value of the leading digits. */
  function MatchDigits(d: string): Option<nat>
  {
    var n := LeadingRun(d, IsDigit);
    if n == 0 then None else Some(DecimalValue(d[..n]))
  }

  /** The line is an exit command: `exit`, `quit` or `q` in any case. */
  predicate IsExitLine(line: string)
  {
    Lower(Strip(line)) in ExitWords
  }

  /** The tests of `run` after the install pattern, in the source's order:
      version, history, clear, help, else search. */
  function KeywordCommand(s: string): (c: Command)
    ensures c == ShowVersion <==> Lower(s) in VersionWords
    ensures c == ListHistory <==> Lower(s) == "history"
    ensures c == ClearScreen <==> Lower(s) in ClearWords
    ensures c == ShowHelp <==> Lower(s) in HelpWords
    ensures c.Query? <==> Lower(s) !in VersionWords + ["history"] + ClearWords + HelpWords
    ensures c.Query? ==> c.text == s
    ensures c.ShowVersion? || c.ListHistory? || c.ClearScreen? || c.ShowHelp? || c.Query?
  {
    var l := Lower(s);
    if l in VersionWords then ShowVersion
    else if l == "history" then ListHistory
    else if l in ClearWords then ClearScreen
    else if l in HelpWords then ShowHelp
    else Query(s)
  }

  /** A command word is never empty and never matches the install pattern. */
  lemma KeywordLine(s: string)
    ensures Lower(s) in Keywords ==> s != "" && MatchInstall(s).None?
  {
    assert forall i :: 0 <= i < |Keywords| ==> 0 < |Keywords[i]| < 15;
    MatchInstallLength(s);
  }

  /** The command words fall into the five classes `run` tests, and an exit
      word is in no other class. */
  lemma KeywordClasses(l: string)
    ensures l in Keywords <==>
      l in ExitWords || l in VersionWords || l == "history" || l in ClearWords || l in HelpWords
    ensures l in ExitWords ==>
      !(l in VersionWords || l == "history" || l in ClearWords || l in HelpWords)
    ensures l != ""
      || !(l in ExitWords || l in VersionWords || l == "history" || l in ClearWords || l in HelpWords)
  {
  }

  /** The dispatch of `run` on the stripped input line, in the source's
      order: empty, exit, install, then the other command words, else search. */
  function Classify(line: string): (c: Command)
    ensures c.Blank? <==> Strip(line) == ""
    ensures c.Quit? <==> IsExitLine(line)
    ensures c.InstallRepo? <==> Strip(line) != "" && !IsExitLine(line) && MatchInstall(Strip(line)).Some?
    ensures c.InstallRepo? ==> MatchInstall(Strip(line)) == Some(c.number)
    ensures c == ShowVersion <==> Lower(Strip(line)) in VersionWords
    ensures c == ListHistory <==> Lower(Strip(line)) == "history"
    ensures c == ClearScreen <==> Lower(Strip(line)) in ClearWords
    ensures c == ShowHelp <==> Lower(Strip(line)) in HelpWords
    ensures c.Query? <==>
      Strip(line) != "" && MatchInstall(Strip(line)).None? && Lower(Strip(line)) !in Keywords
    ensures c.Query? ==> c.text == Strip(line)
  {
    var s := Strip(line);
    KeywordLine(s);
    KeywordClasses(Lower(s));
    if s == "" then Blank
    else if Lower(s) in ExitWords then Quit
    else if MatchInstall(s).Some? then InstallRepo(MatchInstall(s).value)
    else KeywordCommand(s)
  }

  lemma {:induction false} LeadingRunOf(pre: string, t: string, p: char -> bool)
    requires forall i :: 0 <= i < |pre| ==> p(pre[i])
    requires t == [] || !p(t[0])
    ensures LeadingRun(pre + t, p) == |pre|
  {
    var s := pre + t;
    assert forall i :: 0 <= i < |pre| ==> s[i] == pre[i];
    assert t != [] ==> s[|pre|] == t[0];
  }

  lemma MatchDigitsOf(digits: string, rest: string)
    requires digits != [] && forall i :: 0 <= i < |digits| ==> IsDigit(digits[i])
    requires rest == [] || !IsDigit(rest[0])
    ensures MatchDigits(digits + rest) == Some(DecimalValue(digits))
  {
    LeadingRunOf(digits, rest, IsDigit);
    assert (digits + rest)[..|digits|] == digits;
  }

  lemma MatchNumberOf(quote: string, digits: string, rest: string)
    requires quote == "" || quote == "\""
    requires digits != [] && forall i :: 0 <= i < |digits| ==> IsDigit(digits[i])
    requires rest == [] || !IsDigit(rest[0])
    ensures MatchNumber(quote + (digits + rest)) == Some(DecimalValue(digits))
  {
    var d := digits + rest;
    if quote == "" {
      assert quote + d == d;
      assert d[0] == digits[0];
    } else {
      assert (quote + d)[0] == '"' && (quote + d)[1..] == d;
    }
    MatchDigitsOf(digits, rest);
  }

  /** The number part never starts with whitespace. */
  lemma NumberStartsVisible(quote: string, digits: string, rest: string)
    requires quote == "" || quote == "\""
    requires digits != [] && IsDigit(digits[0])
    ensures !IsSpace((quote + (digits + rest))[0])
  {
    if quote == "" {
      assert (quote + (digits + rest))[0] == digits[0];
    } else {
      assert (quote + (digits + rest))[0] == '"';
    }
  }

  lemma MatchAfterRepoOf(sp: string, c: string)
    requires sp != [] && AllSpace(sp)
    requires c == [] || !IsSpace(c[0])
    ensures MatchAfterRepo(sp + c) == MatchNumber(c)
  {
    LeadingRunOf(sp, c, IsSpace);
    assert (sp + c)[|sp|..] == c;
  }

  lemma MatchAfterInstallOf(sp: string, w: string, b: string)
    requires sp != [] && AllSpace(sp)
    requires Lower(w) == "-repo"
    ensures MatchAfterInstall(sp + (w + b)) == MatchAfterRepo(b)
  {
    var a := sp + (w + b);
    assert Lower(w)[0] == LowerChar(w[0]) == '-';
    LeadingRunOf(sp, w + b, IsSpace);
    assert a[|sp|..] == w + b;
    assert (w + b)[..5] == w && (w + b)[5..] == b;
  }

  lemma MatchInstallOf(w: string, a: string)
    requires Lower(w) == "install"
    ensures MatchInstall(w + a) == MatchAfterInstall(a)
  {
    assert (w + a)[..7] == w && (w + a)[7..] == a;
  }

  /** `\s+"?(\d+)` after "-repo". */
  lemma AfterRepoMatches(sp: string, quote: string, digits: string, rest: string)
    requires sp != [] && AllSpace(sp)
    requires quote == "" || quote == "\""
    requires digits != [] && forall i :: 0 <= i < |digits| ==> IsDigit(digits[i])
    requires rest == [] || !IsDigit(rest[0])
    ensures MatchAfterRepo(sp + (quote + (digits + rest))) == Some(DecimalValue(digits))
  {
    MatchNumberOf(quote, digits, rest);
    NumberStartsVisible(quote, digits, rest);
    MatchAfterRepoOf(sp, quote + (digits + rest));
  }

  /** Every spelling the pattern accepts: "install" and "-repo" in any case,
      any non-empty runs of whitespace, an optional opening quote, the
      digits, and anything after them. */
  lemma InstallPatternMatches(w1: string, sp1: string, w2: string, sp2: string,
                              quote: string, digits: string, rest: string)
    requires Lower(w1) == "install" && Lower(w2) == "-repo"
    requires sp1 != [] && AllSpace(sp1) && sp2 != [] && AllSpace(sp2)
    requires quote == "" || quote == "\""
    requires digits != [] && forall i :: 0 <= i < |digits| ==> IsDigit(digits[i])
    requires rest == [] || !IsDigit(rest[0])
    ensures MatchInstall(w1 + (sp1 + (w2 + (sp2 + (quote + (digits + rest)))))) == Some(DecimalValue(digits))
  {
    var b := sp2 + (quote + (digits + rest));
    MatchInstallOf(w1, sp1 + (w2 + b));
    MatchAfterInstallOf(sp1, w2, b);
    AfterRepoMatches(sp2, quote, digits, rest);
  }

  /** The whitespace run `\s+` consumes is all whitespace. */
  lemma SpaceRun(b: string)
    ensures AllSpace(b[..LeadingRun(b, IsSpace)])
    ensures b == b[..LeadingRun(b, IsSpace)] + b[LeadingRun(b, IsSpace)..]
  {
    var k := LeadingRun(b, IsSpace);
    assert forall i :: 0 <= i < k ==> b[..k][i] == b[i];
  }

  /** What `(\d+)` accepts: the leading digits and the rest. */
  lemma MatchDigitsShape(d: string) returns (digits: string, rest: string)
    requires MatchDigits(d).Some?
    ensures d == digits + rest
    ensures digits != [] && forall i :: 0 <= i < |digits| ==> IsDigit(digits[i])
    ensures rest == [] || !IsDigit(rest[0])
    ensures MatchDigits(d) == Some(DecimalValue(digits))
  {
    var n := LeadingRun(d, IsDigit);
    digits, rest := d[..n], d[n..];
    assert forall i :: 0 <= i < n ==> digits[i] == d[i];
    assert d == digits + rest;
  }

  /** What `"?(\d+)` accepts. */
  lemma MatchNumberShape(c: string) returns (quote: string, digits: string, rest: string)
    requires MatchNumber(c).Some?
    ensures c == quote + (digits + rest)
    ensures quote == "" || quote == "\""
    ensures digits != [] && forall i :: 0 <= i < |digits| ==> IsDigit(digits[i])
    ensures rest == [] || !IsDigit(rest[0])
    ensures MatchNumber(c) == Some(DecimalValue(digits))
  {
    if c != [] && c[0] == '"' {
      quote := c[..1];
      assert c == quote + c[1..];
      digits, rest := MatchDigitsShape(c[1..]);
    } else {
      quote := "";
      digits, rest := MatchDigitsShape(c);
    }
  }

  /** What `\s+"?(\d+)` accepts after "-repo". */
  lemma MatchAfterRepoShape(b: string) returns (sp: string, quote: string, digits: string, rest: string)
    requires MatchAfterRepo(b).Some?
    ensures b == sp + (quote + (digits + rest))
    ensures sp != [] && AllSpace(sp)
    ensures quote == "" || quote == "\""
    ensures digits != [] && forall i :: 0 <= i < |digits| ==> IsDigit(digits[i])
    ensures rest == [] || !IsDigit(rest[0])
    ensures MatchAfterRepo(b) == Some(DecimalValue(digits))
  {
    var m := LeadingRun(b, IsSpace);
    SpaceRun(b);
    sp := b[..m];
    quote, digits, rest := MatchNumberShape(b[m..]);
  }

  /** What `\s+-repo\s+"?(\d+)` accepts after "install". */
  lemma MatchAfterInstallShape(a: string) returns (sp1: string, w2: string, sp2: string,
                                                   quote: string, digits: string, rest: string)
    requires MatchAfterInstall(a).Some?
    ensures a == sp1 + (w2 + (sp2 + (quote + (digits + rest))))
    ensures Lower(w2) == "-repo"
    ensures sp1 != [] && AllSpace(sp1) && sp2 != [] && AllSpace(sp2)
    ensures quote == "" || quote == "\""
    ensures digits != [] && forall i :: 0 <= i < |digits| ==> IsDigit(digits[i])
    ensures rest == [] || !IsDigit(rest[0])
    ensures MatchAfterInstall(a) == Some(DecimalValue(digits))
  {
    var k := LeadingRun(a, IsSpace);
    SpaceRun(a);
    sp1 := a[..k];
    var a2 := a[k..];
    w2 := a2[..5];
    assert a2 == w2 + a2[5..];
    sp2, quote, digits, rest := MatchAfterRepoShape(a2[5..]);
  }

  /** The converse of `InstallPatternMatches`: a line the pattern accepts
      is made of "install" and "-repo" in some letter case, two non-empty
      whitespace runs, an optional quote, the digits whose value is the
      result, and text that does not start with a digit. */
  lemma MatchInstallShape(s: string) returns (w1: string, sp1: string, w2: string, sp2: string,
                                               quote: string, digits: string, rest: string)
    requires MatchInstall(s).Some?
    ensures s == w1 + (sp1 + (w2 + (sp2 + (quote + (digits + rest)))))
    ensures Lower(w1) == "install" && Lower(w2) == "-repo"
    ensures sp1 != [] && AllSpace(sp1) && sp2 != [] && AllSpace(sp2)
    ensures quote == "" || quote == "\""
    ensures digits != [] && forall i :: 0 <= i < |digits| ==> IsDigit(digits[i])
    ensures rest == [] || !IsDigit(rest[0])
    ensures MatchInstall(s) == Some(DecimalValue(digits))
  {
    w1 := s[..7];
    assert s == w1 + s[7..];
    sp1, w2, sp2, quote, digits, rest := MatchAfterInstallShape(s[7..]);
  }

  /** No line shorter than 15 characters matches the install pattern, so no
      other keyword does. */
  lemma MatchInstallLength(s: string)
    ensures MatchInstall(s).Some? ==> |s| >= 15
  {
    if MatchInstall(s).Some? {
      var w1, sp1, w2, sp2, quote, digits, rest := MatchInstallShape(s);
    }
  }

  /** The command the help text advertises: `install -repo "N"`. */
  function InstallCommand(n: nat): string
  {
    "install -repo \"" + (NatToString(n) + "\"")
  }

  /** A line longer than every keyword, with nothing to strip, is an
      install when the pattern matches and a search otherwise. */
  lemma ClassifyLongLine(s: string)
    requires |s| > 9 && s == Strip(s)
    ensures Classify(s) == if MatchInstall(s).Some? then InstallRepo(MatchInstall(s).value) else Query(s)
  {
    assert |Lower(s)| > 9;
  }

  /** The advertised command read as "install" and then what follows it. */
  lemma InstallCommandParts(n: nat)
    ensures InstallCommand(n)[..7] == "install"
    ensures InstallCommand(n)[7..] == " " + ("-repo" + (" " + ("\"" + (NatToString(n) + "\""))))
  {
  }

  lemma MatchInstallCommand(n: nat)
    ensures MatchInstall(InstallCommand(n)) == Some(n)
  {
    var digits := NatToString(n);
    var x := digits + "\"";
    InstallCommandParts(n);
    assert Lower("install") == "install";
    assert AllSpace(" ") && Lower("-repo") == "-repo";
    MatchAfterInstallOf(" ", "-repo", " " + ("\"" + x));
    MatchAfterRepoOf(" ", "\"" + x);
    MatchNumberOf("\"", digits, "\"");
    DecimalOfNatToString(n);
  }

  /** The advertised install command is classified as an install of that
      very number. */
  lemma ClassifyInstallCommand(n: nat)
    ensures Classify(InstallCommand(n)) == InstallRepo(n)
  {
    var s := InstallCommand(n);
    assert s[0] == 'i' && s[|s| - 1] == '"';
    StripVisible(s);
    ClassifyLongLine(s);
    MatchInstallCommand(n);
  }

  lemma NegativeSelectionUnmatched(digits: string)
    ensures MatchInstall("install -repo -" + digits) == None
  {
    var s := "install -repo -" + digits;
    assert s[..7] == "install" && Lower("install") == "install";
    var a := s[7..];
    assert a == " " + ("-repo" + (" " + ("-" + digits)));
    assert AllSpace(" ") && Lower("-repo") == "-repo";
    MatchAfterInstallOf(" ", "-repo", " " + ("-" + digits));
    MatchAfterRepoOf(" ", "-" + digits);
    assert LeadingRun("-" + digits, IsDigit) == 0;
  }

  /** A negative selection does not match the pattern at all: the line is
      run as a search query, not rejected as out of range. */
  lemma NegativeSelectionIsQuery(n: nat)
    ensures Classify("install -repo -" + NatToString(n)) == Query("install -repo -" + NatToString(n))
  {
    var digits := NatToString(n);
    var s := "install -repo -" + digits;
    assert s[0] == 'i' && s[|s| - 1] == digits[|digits| - 1];
    StripVisible(s);
    ClassifyLongLine(s);
    NegativeSelectionUnmatched(digits);
  }

  // ---------------------------------------------------------------------
  // The bounded history

  const MaxHistory := 50
  const MaxQueryLength := 500
  const RecentHistory := 10

  /** Lines 53-55: evict the oldest entry when full, then append the
      query's first 500 characters. */
  function RecordQuery(history: seq<string>, query: string): (h: seq<string>)
    ensures h != [] && h[|h| - 1] == Take(query, MaxQueryLength)
  {
    (if |history| >= MaxHistory then history[1..] else history) + [Take(query, MaxQueryLength)]
  }

  /** The history invariant: at most 50 entries of at most 500 characters. */
  predicate HistoryValid(h: seq<string>)
  {
    |h| <= MaxHistory && forall i :: 0 <= i < |h| ==> |h[i]| <= MaxQueryLength
  }

  /** Recording a query keeps the invariant, keeps the surviving entries in
      their order, and evicts only the oldest, only when full. */
  lemma RecordQueryKeepsBound(history: seq<string>, query: string)
    requires HistoryValid(history)
    ensures HistoryValid(RecordQuery(history, query))
    ensures |history| < MaxHistory ==> RecordQuery(history, query) == history + [Take(query, MaxQueryLength)]
    ensures |history| == MaxHistory ==>
      |RecordQuery(history, query)| == MaxHistory
      && RecordQuery(history, query)[..MaxHistory - 1] == history[1..]
  {
  }

  /** The last 50 elements of `xs`. */
  function Window(xs: seq<string>): (w: seq<string>)
    ensures |w| == Min(|xs|, MaxHistory)
  {
    xs[|xs| - Min(|xs|, MaxHistory)..]
  }

  /** Recording a query into the window of a list is the window of the list
      with the query appended. */
  lemma RecordQueryWindow(xs: seq<string>, query: string)
    ensures RecordQuery(Window(xs), query) == Window(xs + [Take(query, MaxQueryLength)])
  {
    var e := Take(query, MaxQueryLength);
    var ys := xs + [e];
    if |xs| >= MaxHistory {
      assert Window(xs)[1..] == xs[|xs| - MaxHistory + 1..];
      assert Window(ys) == xs[|xs| - MaxHistory + 1..] + [e];
    } else {
      assert Window(xs) == xs;
      assert Window(ys) == ys;
    }
  }

  // ---------------------------------------------------------------------
  // The search turn

  /** The session's state: `search_history`, `last_results`, `last_ranked`. */
  datatype SessionState = SessionState(history: seq<string>, results: seq<Repo>, ranked: Json)

  /** `__init__`. */
  const InitialState := SessionState([], [], JArr([]))

  /** The backend answers one search turn consumes. */
  datatype SearchBackend = SearchBackend(analyze: AiCall, github: SearchCall, rank: AiCall)

  /** How a search turn ends. */
  datatype SearchOutcome =
    | SearchRaised                // an exception reached the loop's handler
    | GitHubError(error: RequestError)
    | NoRepositories
    | RawResults(shown: seq<Repo>) // "Could not rank repositories. Showing raw results."
    | RankedResults(ranked: Json)

  /** The state after a turn, how it ended, and the search terms sent to
      the search service (none when the turn ended before the request). */
  datatype TurnResult = TurnResult(state: SessionState, outcome: SearchOutcome, searched: Option<Json>)

  const RawDisplayLimit := 5

  /** The ranking stage of `search` (lines 93-115): a reply object with a
      truthy `ranked_repos` replaces `last_ranked` and is shown; any other
      reply object shows the first five raw results; anything else raises. */
  function RankStage(s: SessionState, repos: seq<Repo>, reply: Result<Json>): (r: (SessionState, SearchOutcome))
    ensures r.0.history == s.history && r.0.results == s.results
    ensures r.1.SearchRaised? || r.1.RawResults? || r.1.RankedResults?
    ensures r.1.RankedResults? <==>
      reply.Ok? && reply.value.JObj? && Truthy(Get(reply.value.fields, "ranked_repos", JArr([])))
    ensures r.1.RankedResults? ==> r.0.ranked == r.1.ranked && Truthy(r.1.ranked)
    ensures !r.1.RankedResults? ==> r.0.ranked == s.ranked
    ensures r.1.RawResults? <==>
      reply.Ok? && reply.value.JObj? && !Truthy(Get(reply.value.fields, "ranked_repos", JArr([])))
    ensures r.1.RawResults? ==> r.1.shown == Take(repos, RawDisplayLimit)
    ensures r.1.RankedResults? ==> r.1.ranked == Get(reply.value.fields, "ranked_repos", JArr([]))
  {
    match reply
    case Ok(JObj(fields)) =>
      var ranked := Get(fields, "ranked_repos", JArr([]));
      if Truthy(ranked) then (s.(ranked := ranked), RankedResults(ranked))
      else (s, RawResults(Take(repos, RawDisplayLimit)))
    case _ => (s, SearchRaised)
  }

  /** The search returned hits, and ranking them gave an object whose
      `ranked_repos` is falsy: the raw hits are shown. */
  predicate RanksRaw(b: SearchBackend, loads: Loads)
  {
    && b.github.Responded? && b.github.items != []
    && var reply := RankReply(b.github.items, b.rank, loads);
    && reply.Ok? && reply.value.JObj? && !Truthy(Get(reply.value.fields, "ranked_repos", JArr([])))
  }

  /** The search returned hits, and ranking them gave an object whose
      `ranked_repos` is truthy: that ranking is stored. */
  predicate RanksTruthy(b: SearchBackend, loads: Loads)
  {
    && b.github.Responded? && b.github.items != []
    && var reply := RankReply(b.github.items, b.rank, loads);
    && reply.Ok? && reply.value.JObj? && Truthy(Get(reply.value.fields, "ranked_repos", JArr([])))
  }

  /** The search stage of `search` (lines 71-115): the request, its error
      and empty cases, storing `last_results`, then ranking. */
  function SearchStage(s: SessionState, b: SearchBackend, loads: Loads): (r: (SessionState, SearchOutcome))
    ensures r.0.history == s.history
    ensures r.1.GitHubError? <==> b.github.RequestFailed?
    ensures r.1.NoRepositories? <==> b.github.Responded? && b.github.items == []
    ensures r.1.GitHubError? || r.1.NoRepositories? ==> r.0 == s
    ensures b.github.Responded? && b.github.items != [] ==> r.0.results == b.github.items
    ensures r.0.results == s.results || (b.github.Responded? && r.0.results == b.github.items != [])
    ensures r.0.ranked == s.ranked || (r.1 == RankedResults(r.0.ranked) && Truthy(r.0.ranked))
    ensures r.1.RankedResults? ==> r.0.ranked == r.1.ranked && Truthy(r.1.ranked)
    ensures r.1.RawResults? ==> r.0.ranked == s.ranked && r.0.results != []
    ensures r.1.RawResults? <==> RanksRaw(b, loads)
    ensures r.1.RankedResults? <==> RanksTruthy(b, loads)
    ensures r.1.RankedResults? ==>
      r.1.ranked == Get(RankReply(b.github.items, b.rank, loads).value.fields, "ranked_repos", JArr([]))
  {
    var results := SearchRepositories(b.github);
    if results.error.Some? then (s, GitHubError(results.error.value))
    else if results.items == [] then (s, NoRepositories)
    else RankStage(s.(results := results.items), results.items, RankReply(results.items, b.rank, loads))
  }

  /** The specification of `search`: record the query, analyse it, then run
      the search stage with the profile's search terms. */
  function SearchTurn(s: SessionState, query: string, b: SearchBackend, loads: Loads): (r: TurnResult)
    ensures r.state.history == RecordQuery(s.history, query)
    ensures r.outcome.GitHubError? || r.outcome.NoRepositories? ==>
      r.state.results == s.results && r.state.ranked == s.ranked
    ensures r.state.results == s.results || (b.github.Responded? && r.state.results == b.github.items != [])
    ensures r.state.ranked == s.ranked || (r.outcome == RankedResults(r.state.ranked) && Truthy(r.state.ranked))
    ensures r.outcome.RankedResults? ==> r.state.ranked == r.outcome.ranked && Truthy(r.outcome.ranked)
    ensures r.outcome.RawResults? ==> r.state.ranked == s.ranked && r.state.results != []
    ensures r.searched.Some? <==> AnalyzeQuery(query, b.analyze, loads).JObj?
    ensures !AnalyzeQuery(query, b.analyze, loads).JObj? ==>
      r.outcome.SearchRaised? && r.state == s.(history := RecordQuery(s.history, query))
    ensures AnalyzeQuery(query, b.analyze, loads).JObj? ==>
      && (r.outcome.GitHubError? <==> b.github.RequestFailed?)
      && (r.outcome.NoRepositories? <==> b.github.Responded? && b.github.items == [])
      && (b.github.Responded? && b.github.items != [] ==> r.state.results == b.github.items)
      && (r.outcome.RawResults? <==> RanksRaw(b, loads))
      && (r.outcome.RankedResults? <==> RanksTruthy(b, loads))
      && (r.outcome.RankedResults? ==>
            r.outcome.ranked == Get(RankReply(b.github.items, b.rank, loads).value.fields, "ranked_repos", JArr([])))
    ensures r.searched.Some? ==>
      r.searched.value == Get(AnalyzeQuery(query, b.analyze, loads).fields, "search_terms", JStr(query))
  {
    var recorded := s.(history := RecordQuery(s.history, query));
    match AnalyzeQuery(query, b.analyze, loads)
    case JObj(profile) =>
      var stage := SearchStage(recorded, b, loads);
      TurnResult(stage.0, stage.1, Some(Get(profile, "search_terms", JStr(query))))
    case _ => TurnResult(recorded, SearchRaised, None)
  }

  /** A reply object without `ranked_repos` shows the first five raw
      results and leaves the state alone. */
  lemma UnrankedReply(s: SessionState, repos: seq<Repo>, fields: map<string, Json>)
    requires "ranked_repos" !in fields
    ensures RankStage(s, repos, Ok(JObj(fields))) == (s, RawResults(Take(repos, RawDisplayLimit)))
  {
  }

  /** A failed search request ends the turn with its sanitised message; only
      the history has changed. */
  lemma GitHubFailureAbortsTurn(s: SessionState, query: string, b: SearchBackend, loads: Loads)
    requires b.github.RequestFailed?
    requires AnalyzeQuery(query, b.analyze, loads).JObj?
    ensures SearchTurn(s, query, b, loads).outcome == GitHubError(ClassifyRequestError(b.github.message))
    ensures SearchTurn(s, query, b, loads).state == s.(history := RecordQuery(s.history, query))
  {
  }

  /** With the generative backend down for the whole turn, the error payloads
      decode: the unsanitised query is sent as the search terms, the rank
      reply has no `ranked_repos`, and the raw results are shown while
      `last_ranked` keeps its old value. */
  lemma BackendDownTurn(s: SessionState, query: string, b: SearchBackend, loads: Loads)
    requires ParsesErrorPayloads(loads)
    requires !b.analyze.Replied? && !b.rank.Replied?
    requires b.github.Responded? && b.github.items != []
    requires RepoData(b.github.items).Ok?
    ensures SearchTurn(s, query, b, loads) ==
      TurnResult(SessionState(RecordQuery(s.history, query), b.github.items, s.ranked),
                 RawResults(Take(b.github.items, RawDisplayLimit)), Some(JStr(query)))
  {
    var items := b.github.items;
    AnalyzeOnFailedCall(query, b.analyze, loads);
    RankOnFailedCall(items, b.rank, loads);
    var profile := ErrorObject(FailureText(FailureOf(b.analyze)));
    assert Get(profile.fields, "search_terms", JStr(query)) == JStr(query);
    var reply := ErrorObject(FailureText(FailureOf(b.rank)));
    assert Get(reply.fields, "ranked_repos", JArr([])) == JArr([]);
    var recorded := s.(history := RecordQuery(s.history, query));
    var stored := recorded.(results := items);
    assert "ranked_repos" !in reply.fields;
    UnrankedReply(stored, items, reply.fields);
    assert SearchStage(recorded, b, loads) == (stored, RawResults(Take(items, RawDisplayLimit)));
  }

  /** A rank reply whose `ranked_repos` is truthy ends the turn with that
      ranking stored and shown. */
  lemma RankedTurn(s: SessionState, query: string, b: SearchBackend, loads: Loads, reply: map<string, Json>)
    requires AnalyzeQuery(query, b.analyze, loads).JObj?
    requires b.github.Responded? && b.github.items != []
    requires RankReply(b.github.items, b.rank, loads) == Ok(JObj(reply))
    requires "ranked_repos" in reply && Truthy(reply["ranked_repos"])
    ensures SearchTurn(s, query, b, loads) ==
      TurnResult(SessionState(RecordQuery(s.history, query), b.github.items, reply["ranked_repos"]),
                 RankedResults(reply["ranked_repos"]),
                 Some(Get(AnalyzeQuery(query, b.analyze, loads).fields, "search_terms", JStr(query))))
  {
  }

  /** A raising `rank_repositories` ends the turn in the loop's handler,
      after the hits are stored; `last_ranked` keeps its value. */
  lemma RaisedRankTurn(s: SessionState, query: string, b: SearchBackend, loads: Loads)
    requires AnalyzeQuery(query, b.analyze, loads).JObj?
    requires b.github.Responded? && b.github.items != []
    requires RankReply(b.github.items, b.rank, loads).Raised?
    ensures SearchTurn(s, query, b, loads) ==
      TurnResult(SessionState(RecordQuery(s.history, query), b.github.items, s.ranked), SearchRaised,
                 Some(Get(AnalyzeQuery(query, b.analyze, loads).fields, "search_terms", JStr(query))))
  {
  }

  /** `ranked` is the fallback's list: the first five of `repos`, in their
      order, ranked 1..k. */
  predicate IsFallbackRanking(ranked: Json, repos: seq<Repo>)
  {
    && ranked.JArr?
    && |ranked.items| == Min(|repos|, FallbackLimit)
    && forall i :: 0 <= i < |ranked.items| ==> i < |repos| && Ok(ranked.items[i]) == FallbackEntry(i + 1, repos[i])
  }

  /** With both replies undecodable, the turn searches for the sanitised
      query and stores the hits.  Unless a `null` the prompt or the fallback
      slices raises, it stores and shows the deterministic fallback ranking:
      the first five hits, ranked 1..k. */
  lemma UndecodableRepliesTurn(s: SessionState, query: string, b: SearchBackend, loads: Loads)
    requires loads(StripFences(CallAi(b.analyze))).None?
    requires loads(StripFences(CallAi(b.rank))).None?
    requires b.github.Responded? && b.github.items != []
    ensures var r := SearchTurn(s, query, b, loads);
      && r.searched == Some(JStr(SafeQuery(query)))
      && r.state.history == RecordQuery(s.history, query)
      && r.state.results == b.github.items
      && (r.outcome.RankedResults? <==> PromptFieldsPresent(b.github.items) && SummaryFieldsPresent(b.github.items))
      && (r.outcome.RankedResults? ==>
            r.outcome == RankedResults(r.state.ranked) && IsFallbackRanking(r.state.ranked, b.github.items))
      && (!r.outcome.RankedResults? ==> r.outcome == SearchRaised && r.state.ranked == s.ranked)
  {
    var items := b.github.items;
    RankOnUndecodableReply(items, b.rank, loads);
    var profile := FallbackProfile(query);
    assert AnalyzeQuery(query, b.analyze, loads) == profile;
    assert Get(profile.fields, "search_terms", JStr(query)) == JStr(SafeQuery(query));
    if PromptFieldsPresent(items) && SummaryFieldsPresent(items) {
      FallbackShape(items);
      RankedTurn(s, query, b, loads, FallbackReply(items).value.fields);
    } else {
      RaisedRankTurn(s, query, b, loads);
    }
  }

  // ---------------------------------------------------------------------
  // The install lookup

  /** The backend answers one install turn consumes. */
  datatype InstallBackend = InstallBackend(readme: ReadmeCall, steps: AiCall)

  /** How an install turn ends.  `Instructions` carries what is shown: the
      selected name, its URL (cloned as `url + ".git"`), the README request
      made (owner, name), the README context of the prompt, the directory to
      `cd` into and the setup steps. */
  datatype InstallOutcome =
    | NoResults                  // "No search results. Run a search first."
    | OutOfRange(count: nat)     // "Invalid repository number. Choose 1-{count}"
    | InstallRaised              // an exception reached the loop's handler
    | Instructions(number: nat, repoName: string, url: Json,
                   readmeRequest: Option<(string, string)>, readmeContext: string,
                   cdTarget: string, steps: Json)

  /** Python's `len(x)`, or `None` where it raises. */
  function PyLen(j: Json): (r: Option<nat>)
    ensures r.Some? <==> j.JStr? || j.JArr? || j.JObj?
    ensures j.JArr? ==> r == Some(|j.items|)
  {
    match j
    case JStr(s) => Some(|s|)
    case JArr(items) => Some(|items|)
    case JObj(fields) => Some(|fields|)
    case _ => None
  }

  /** The part of `install` after the selection (lines 160-184): the entry's
      `name`, `url` and `language` (defaulting to "", "" and "Unknown"), the
      README of `owner/name` when the name has a slash, then the setup steps.
      A non-object entry, a non-string name or a raising step request ends
      the turn in the loop's handler. */
  function InstallEntry(number: nat, entry: Json, backend: InstallBackend, loads: Loads): (o: InstallOutcome)
    ensures o.Instructions? || o.InstallRaised?
    ensures o.Instructions? <==>
      && entry.JObj? && Get(entry.fields, "name", JStr("")).JStr?
      && GetInstallSteps(Get(entry.fields, "language", JStr("Unknown")), backend.steps, loads).Ok?
    ensures o.Instructions? ==>
      && o.number == number
      && Get(entry.fields, "name", JStr("")) == JStr(o.repoName)
      && o.url == Get(entry.fields, "url", JStr(""))
      && Ok(o.steps) == GetInstallSteps(Get(entry.fields, "language", JStr("Unknown")), backend.steps, loads)
      && ('/' in o.repoName ==>
            o.readmeRequest == Some(SplitFirst(o.repoName, '/'))
            && o.cdTarget == SplitFirst(o.repoName, '/').1
            && o.readmeContext == ReadmeContext(GetReadme(backend.readme)))
      && ('/' !in o.repoName ==>
            o.readmeRequest == None && o.cdTarget == o.repoName && o.readmeContext == "")
  {
    if !entry.JObj? then InstallRaised
    else
      var repoName := Get(entry.fields, "name", JStr(""));
      var url := Get(entry.fields, "url", JStr(""));
      var steps := GetInstallSteps(Get(entry.fields, "language", JStr("Unknown")), backend.steps, loads);
      if !repoName.JStr? || steps.Raised? then InstallRaised
      else if '/' in repoName.s then
        var parts := SplitFirst(repoName.s, '/');
        Instructions(number, repoName.s, url, Some(parts), ReadmeContext(GetReadme(backend.readme)), parts.1, steps.value)
      else Instructions(number, repoName.s, url, None, ReadmeContext(None), repoName.s, steps.value)
  }

  /** The specification of `install` (lines 145-184): no ranking, a number
      outside `1..len(last_ranked)`, or the selected entry.  `len` of a value
      without one, or indexing a ranking that is not a list, raises. */
  function InstallSelection(ranked: Json, number: int, backend: InstallBackend, loads: Loads): (o: InstallOutcome)
    ensures o.NoResults? <==> !Truthy(ranked)
    ensures o.OutOfRange? <==>
      Truthy(ranked) && PyLen(ranked).Some? && (number < 1 || number > PyLen(ranked).value)
    ensures o.OutOfRange? ==> o.count == PyLen(ranked).value
    ensures o.Instructions? ==> ranked.JArr? && 1 <= number <= |ranked.items|
    ensures ranked.JArr? && 1 <= number <= |ranked.items| ==>
      o == InstallEntry(number, ranked.items[number - 1], backend, loads)
    ensures !ranked.JArr? ==> !o.Instructions?
  {
    if !Truthy(ranked) then NoResults
    else if PyLen(ranked).None? then InstallRaised
    else if number < 1 || number > PyLen(ranked).value then OutOfRange(PyLen(ranked).value)
    else if !ranked.JArr? then InstallRaised
    else InstallEntry(number, ranked.items[number - 1], backend, loads)
  }

  /** A list of turn inputs: the input line and the answers its backend
      calls get. */
  datatype Turn = Turn(line: string, search: SearchBackend, install: InstallBackend)

  /** The state change of one input line: only a search changes state. */
  function Step(s: SessionState, t: Turn, loads: Loads): SessionState
  {
    match Classify(t.line)
    case Query(q) => SearchTurn(s, q, t.search, loads).state
    case _ => s
  }

  /** A search line changes the state as its search turn does. */
  lemma StepQuery(s: SessionState, t: Turn, q: string, loads: Loads)
    requires Classify(t.line) == Query(q)
    ensures Step(s, t, loads) == SearchTurn(s, q, t.search, loads).state
  {
  }

  /** The state after the given lines, in order. */
  function Replay(s: SessionState, turns: seq<Turn>, loads: Loads): SessionState
    decreases |turns|
  {
    if turns == [] then s else Step(Replay(s, turns[..|turns| - 1], loads), turns[|turns| - 1], loads)
  }

  /** The query a line searches for, if it is a search. */
  function QueryOf(line: string): Option<string>
  {
    if Classify(line).Query? then Some(Classify(line).text) else None
  }

  /** The history after a line that searches for `query`, if any. */
  function RecordLine(h: seq<string>, query: Option<string>): seq<string>
  {
    if query.Some? then RecordQuery(h, query.value) else h
  }

  /** What a line adds to the record of queries. */
  function Stored(query: Option<string>): seq<string>
  {
    if query.Some? then [Take(query.value, MaxQueryLength)] else []
  }

  lemma StepHistory(s: SessionState, t: Turn, loads: Loads)
    ensures Step(s, t, loads).history == RecordLine(s.history, QueryOf(t.line))
  {
  }

  /** The (truncated) queries the given lines record, in order. */
  function StoredQueries(turns: seq<Turn>): seq<string>
    decreases |turns|
  {
    if turns == [] then [] else StoredQueries(turns[..|turns| - 1]) + Stored(QueryOf(turns[|turns| - 1].line))
  }

  /** The history after the given lines, from history `h`. */
  function HistoryAfter(h: seq<string>, turns: seq<Turn>): seq<string>
    decreases |turns|
  {
    if turns == [] then h else RecordLine(HistoryAfter(h, turns[..|turns| - 1]), QueryOf(turns[|turns| - 1].line))
  }

  /** One more line extends the recorded queries as it extends the history. */
  lemma WindowStep(h: seq<string>, ys: seq<string>, query: Option<string>)
    ensures RecordLine(Window(h + ys), query) == Window(h + (ys + Stored(query)))
  {
    var before := h + ys;
    assert before + Stored(query) == h + (ys + Stored(query));
    if query.Some? {
      RecordQueryWindow(before, query.value);
    } else {
      assert before + [] == before;
    }
  }

  /** The history holds exactly the last 50 recorded queries, oldest first. */
  lemma {:induction false} HistoryWindow(h: seq<string>, turns: seq<Turn>)
    requires |h| <= MaxHistory
    ensures HistoryAfter(h, turns) == Window(h + StoredQueries(turns))
    decreases |turns|
  {
    if turns == [] {
      assert h + [] == h;
    } else {
      HistoryWindow(h, turns[..|turns| - 1]);
      WindowStep(h, StoredQueries(turns[..|turns| - 1]), QueryOf(turns[|turns| - 1].line));
    }
  }

  /** A session's history depends only on its lines, never on the backend
      answers. */
  lemma {:induction false} ReplayHistory(s: SessionState, turns: seq<Turn>, loads: Loads)
    ensures Replay(s, turns, loads).history == HistoryAfter(s.history, turns)
    decreases |turns|
  {
    if turns != [] {
      var init := turns[..|turns| - 1];
      ReplayHistory(s, init, loads);
      StepHistory(Replay(s, init, loads), turns[|turns| - 1], loads);
    }
  }

  /** From a fresh session, more than 50 searches leave exactly the last 50
      in the history. */
  lemma FreshSessionHistory(turns: seq<Turn>, loads: Loads)
    ensures Replay(InitialState, turns, loads).history == Window(StoredQueries(turns))
    ensures |StoredQueries(turns)| >= MaxHistory ==> |Replay(InitialState, turns, loads).history| == MaxHistory
  {
    ReplayHistory(InitialState, turns, loads);
    HistoryWindow([], turns);
    assert [] + StoredQueries(turns) == StoredQueries(turns);
  }

  lemma StepKeepsHistoryValid(s: SessionState, t: Turn, loads: Loads)
    requires HistoryValid(s.history)
    ensures HistoryValid(Step(s, t, loads).history)
  {
    if Classify(t.line).Query? {
      RecordQueryKeepsBound(s.history, Classify(t.line).text);
    }
  }

  lemma ReplayNothing(s: SessionState, turns: seq<Turn>, loads: Loads)
    ensures Replay(s, turns[..0], loads) == s
  {
    assert turns[..0] == [];
  }

  /** `Replay` one line further. */
  lemma ReplayStep(s: SessionState, turns: seq<Turn>, n: nat, loads: Loads)
    requires n < |turns|
    ensures Replay(s, turns[..n + 1], loads) == Step(Replay(s, turns[..n], loads), turns[n], loads)
  {
    assert turns[..n + 1][..n] == turns[..n];
  }

  /** No line of `ts` is an exit command. */
  predicate ExitFree(ts: seq<Turn>)
  {
    forall j :: 0 <= j < |ts| ==> !IsExitLine(ts[j].line)
  }

  lemma ExitFreeStep(turns: seq<Turn>, n: nat)
    requires n < |turns|
    requires ExitFree(turns[..n]) && !IsExitLine(turns[n].line)
    ensures ExitFree(turns[..n + 1])
  {
    assert turns[..n + 1][..n] == turns[..n];
  }

  // ---------------------------------------------------------------------
  // The controller object

  class RepoHunter {
    var searchHistory: seq<string>
    var lastResults: seq<Repo>
    var lastRanked: Json

    function State(): SessionState
      reads this
    {
      SessionState(searchHistory, lastResults, lastRanked)
    }

    ghost predicate Valid()
      reads this
    {
      HistoryValid(searchHistory)
    }

    constructor ()
      ensures Valid() && State() == InitialState
    {
      searchHistory := [];
      lastResults := [];
      lastRanked := JArr([]);
    }

    /** `search`: one search turn, as `SearchTurn` specifies it.  This part
        records the query and analyses it. */
    method Search(query: string, backend: SearchBackend, loads: Loads)
      returns (outcome: SearchOutcome, searched: Option<Json>)
      requires Valid()
      modifies this
      ensures Valid()
      ensures TurnResult(State(), outcome, searched) == SearchTurn(old(State()), query, backend, loads)
    {
      RecordQueryKeepsBound(searchHistory, query);
      if |searchHistory| >= MaxHistory {
        searchHistory := searchHistory[1..];
      }
      searchHistory := searchHistory + [Take(query, MaxQueryLength)];

      var profile := AnalyzeQuery(query, backend.analyze, loads);
      if !profile.JObj? {
        return SearchRaised, None;
      }
      searched := Some(Get(profile.fields, "search_terms", JStr(query)));
      outcome := SearchProfiled(backend, loads);
    }

    /** The search request, its error and empty cases, and the ranking. */
    method SearchProfiled(backend: SearchBackend, loads: Loads) returns (outcome: SearchOutcome)
      modifies this
      ensures (State(), outcome) == SearchStage(old(State()), backend, loads)
    {
      var results := SearchRepositories(backend.github);
      if results.error.Some? {
        return GitHubError(results.error.value);
      }
      var repos := results.items;
      if repos == [] {
        return NoRepositories;
      }
      lastResults := repos;
      outcome := StoreRanking(repos, backend.rank, loads);
    }

    /** The ranking step: store a truthy ranking, or fall back to the raw
        results. */
    method StoreRanking(repos: seq<Repo>, call: AiCall, loads: Loads) returns (outcome: SearchOutcome)
      modifies this
      ensures (State(), outcome) == RankStage(old(State()), repos, RankReply(repos, call, loads))
    {
      var ranked := RankRepositories(repos, call, loads);
      if ranked.Raised? || !ranked.value.JObj? {
        return SearchRaised;
      }
      var rankedRepos := Get(ranked.value.fields, "ranked_repos", JArr([]));
      if !Truthy(rankedRepos) {
        outcome := RawResults(Take(repos, RawDisplayLimit));
      } else {
        lastRanked := rankedRepos;
        outcome := RankedResults(rankedRepos);
      }
    }

    /** `install`: look up entry `number` of `last_ranked` and produce its
        instructions.  It changes no state. */
    method Install(number: int, backend: InstallBackend, loads: Loads) returns (o: InstallOutcome)
      ensures o == InstallSelection(lastRanked, number, backend, loads)
    {
      if !Truthy(lastRanked) {
        return NoResults;
      }
      var count := PyLen(lastRanked);
      if count.None? {
        return InstallRaised;
      }
      if number < 1 || number > count.value {
        return OutOfRange(count.value);
      }
      if !lastRanked.JArr? {
        return InstallRaised;
      }
      var repo := lastRanked.items[number - 1];
      if !repo.JObj? {
        return InstallRaised;
      }
      var repoName := Get(repo.fields, "name", JStr(""));
      var url := Get(repo.fields, "url", JStr(""));
      var language := Get(repo.fields, "language", JStr("Unknown"));
      if !repoName.JStr? {
        return InstallRaised;
      }
      var name := repoName.s;
      var readmeRequest: Option<(string, string)> := None;
      var readme: Option<string> := None;
      var cdTarget := name;
      if '/' in name {
        var parts := SplitFirst(name, '/');
        readmeRequest := Some(parts);
        readme := GetReadme(backend.readme);
        cdTarget := parts.1;
      }
      var steps := GetInstallSteps(language, backend.steps, loads);
      if steps.Raised? {
        return InstallRaised;
      }
      o := Instructions(number, name, url, readmeRequest, ReadmeContext(readme), cdTarget, steps.value);
    }

    /** `show_history`: the last ten entries, oldest first; empty when
        there is no history (the "No search history yet." warning). */
    method ShowHistory() returns (recent: seq<string>)
      ensures recent == [] <==> searchHistory == []
      ensures |recent| == Min(|searchHistory|, RecentHistory)
      ensures recent == searchHistory[|searchHistory| - |recent|..]
    {
      var n := |searchHistory|;
      recent := if n <= RecentHistory then searchHistory else searchHistory[n - RecentHistory..];
    }

    /** `run`: nothing happens unless the configuration is valid; then each
        line is dispatched in turn until an exit command.  Returns how many
        lines were read and whether the loop ended on an exit command. */
    method Run(configValid: bool, turns: seq<Turn>, loads: Loads) returns (consumed: nat, exited: bool)
      requires Valid()
      modifies this
      ensures Valid()
      ensures consumed <= |turns|
      ensures State() == Replay(old(State()), turns[..consumed], loads)
      ensures !configValid ==> consumed == 0 && !exited
      ensures exited ==> consumed > 0 && IsExitLine(turns[consumed - 1].line) && ExitFree(turns[..consumed - 1])
      ensures configValid && !exited ==> consumed == |turns| && ExitFree(turns)
    {
      if !configValid {
        ReplayNothing(State(), turns, loads);
        return 0, false;
      }
      consumed, exited := Loop(turns, loads);
    }

    /** The input loop of `run` (lines 221-265). */
    method Loop(turns: seq<Turn>, loads: Loads) returns (consumed: nat, exited: bool)
      requires Valid()
      modifies this
      ensures Valid()
      ensures consumed <= |turns|
      ensures State() == Replay(old(State()), turns[..consumed], loads)
      ensures exited ==> consumed > 0 && IsExitLine(turns[consumed - 1].line) && ExitFree(turns[..consumed - 1])
      ensures !exited ==> consumed == |turns| && ExitFree(turns)
    {
      consumed, exited := 0, false;
      ReplayNothing(State(), turns, loads);
      while consumed < |turns| && !exited
        invariant Valid()
        invariant consumed <= |turns|
        invariant State() == Replay(old(State()), turns[..consumed], loads)
        invariant exited ==> consumed > 0 && IsExitLine(turns[consumed - 1].line) && ExitFree(turns[..consumed - 1])
        invariant !exited ==> ExitFree(turns[..consumed])
      {
        consumed, exited := Advance(old(State()), turns, consumed, loads);
      }
      assert turns[..|turns|] == turns;
    }

    /** One iteration of the loop: dispatch line `n`, extend the replay and
        the run of lines that are not exit commands. */
    method Advance(ghost s0: SessionState, turns: seq<Turn>, n: nat, loads: Loads) returns (next: nat, quit: bool)
      requires Valid() && n < |turns|
      requires State() == Replay(s0, turns[..n], loads)
      requires ExitFree(turns[..n])
      modifies this
      ensures Valid()
      ensures next == n + 1 && next <= |turns|
      ensures State() == Replay(s0, turns[..next], loads)
      ensures quit ==> next > 0 && IsExitLine(turns[next - 1].line) && ExitFree(turns[..next - 1])
      ensures !quit ==> ExitFree(turns[..next])
    {
      ReplayStep(s0, turns, n, loads);
      quit := Dispatch(turns[n], loads);
      if !quit {
        ExitFreeStep(turns, n);
      }
      next := n + 1;
    }

    /** One pass of the loop body: classify the line and run its command. */
    method Dispatch(t: Turn, loads: Loads) returns (quit: bool)
      requires Valid()
      modifies this
      ensures Valid()
      ensures State() == Step(old(State()), t, loads)
      ensures quit <==> IsExitLine(t.line)
    {
      quit := false;
      match Classify(t.line)
      case Blank =>
      case Quit =>
        quit := true;
      case InstallRepo(n) =>
        var _ := Install(n, t.install, loads);
      case ShowVersion =>
      case ListHistory =>
        var _ := ShowHistory();
      case ClearScreen =>
      case ShowHelp =>
      case Query(q) =>
        SearchLine(t, q, loads);
    }

    /** The last branch of `run`: a line that is no command is searched. */
    method SearchLine(t: Turn, q: string, loads: Loads)
      requires Valid() && Classify(t.line) == Query(q)
      modifies this
      ensures Valid()
      ensures State() == Step(old(State()), t, loads)
    {
      ghost var before := State();
      var _, _ := Search(q, t.search, loads);
      StepQuery(before, t, q, loads);
    }
  }
}
