/** The URL helpers of the script analyzer: splitting an API URL literal
    into its endpoint and raw parameters, sorting the strings found in each
    script into backend calls, and the directory a script's static assets
    are served from. */
module JsAnalyzer {
  import opened Text
  import opened QueryString
  import ParamsAnalyzer

  /** `extract_params_from_api_url` as a function: after one pair of
      quotes is dropped, a URL with a `?` is cut at the first one and its
      query split with values left undecoded; a URL without `?` comes back
      with no parameters. */
  function ExtractedUrl(url: string): (string, map<string, Option<string>>) {
    var u := Unquote(url);
    if '?' in u then
      var (base, query) := SplitFirst(u, '?');
      (base, LastWins(Pairs(query, Raw)))
    else (u, map[])
  }

  /** `extract_params_from_api_url`. */
  method ExtractParamsFromApiUrl(url: string) returns (endpoint: string, params: map<string, Option<string>>)
    ensures (endpoint, params) == ExtractedUrl(url)
  {
    var u := Unquote(url);
    params := map[];
    if '?' in u {
      var (base, query) := SplitFirst(u, '?');
      params := ParamsDict(query, Raw);
      return base, params;
    }
    return u, params;
  }

  /** Without a `?` the unquoted URL is the endpoint and there are no
      parameters; with one, the split is the one the parameter report
      makes, without decoding. */
  lemma {:induction false} ExtractedUrlCases(url: string)
    ensures '?' !in Unquote(url) ==> ExtractedUrl(url) == (Unquote(url), map[])
    ensures '?' in Unquote(url) ==>
      && '?' !in ExtractedUrl(url).0
      && ParamsAnalyzer.QueryParams(url, Raw) == Some(ExtractedUrl(url))
  {
  }

  // ---------------------------------------------------------------------
  // Backend calls.

  datatype BackendCall = BackendCall(url: string, endpoint: string, params: map<string, Option<string>>)

  predicate IsAbsolute(u: string) {
    StartsWith(u, "http://") || StartsWith(u, "https://")
  }

  /** A string literal that starts with a quoted `/api` path. */
  predicate IsApiLiteral(u: string) {
    StartsWith(u, "\"/api") || StartsWith(u, "'/api")
  }

  predicate IsFetch(u: string) {
    StartsWith(u, ".fetch") || u == "fetch("
  }

  /** The backend call one found string gives, if any: the string is
      trimmed; absolute URLs belong to the domain map instead, quoted
      `/api` literals are split, `fetch` references are kept whole, and
      anything else is dropped. */
  function CallOf(raw: string): Option<BackendCall> {
    var u := Strip(raw);
    if IsAbsolute(u) then None
    else if IsApiLiteral(u) then
      var (endpoint, params) := ExtractedUrl(u);
      Some(BackendCall(u, endpoint, params))
    else if IsFetch(u) then Some(BackendCall(u, u, map[]))
    else None
  }

  /** The backend calls of one file, in the order its strings were found. */
  function CallsOf(urls: seq<string>): seq<BackendCall> {
    Kept(urls, CallOf)
  }

  /** One found string: the backend call it makes, if any, checked step by
      step as the source does; `CallOf` is the definition it computes and
      the one the lemmas reason about. */
  method ClassifyString(raw: string) returns (call: Option<BackendCall>)
    ensures call == CallOf(raw)
  {
    var url := Strip(raw);
    if StartsWith(url, "http://") || StartsWith(url, "https://") {
      // recorded in the domain map, which is not modelled
      call := None;
    } else if StartsWith(url, "\"/api") || StartsWith(url, "'/api") {
      var endpoint, params := ExtractParamsFromApiUrl(url);
      call := Some(BackendCall(url, endpoint, params));
    } else if StartsWith(url, ".fetch") || url == "fetch(" {
      call := Some(BackendCall(url, url, map[]));
    } else {
      call := None;
    }
  }

  /** The backend map: a file has an entry exactly when at least one of its
      strings is a backend call. */
  function Backend(allMatches: map<string, seq<string>>): map<string, seq<BackendCall>> {
    map f | f in allMatches && CallsOf(allMatches[f]) != [] :: CallsOf(allMatches[f])
  }

  /** `m` with the calls of `file` entered, when there are any. */
  function WithCalls(m: map<string, seq<BackendCall>>, file: string, calls: seq<BackendCall>): map<string, seq<BackendCall>> {
    if calls == [] then m else m[file := calls]
  }

  /** The strings of one file: the file's list is entered once it has a
      backend call. */
  method CategorizeFile(backendCalls: map<string, seq<BackendCall>>, file: string, urls: seq<string>)
    returns (backendCalls': map<string, seq<BackendCall>>)
    requires file !in backendCalls
    ensures backendCalls' == WithCalls(backendCalls, file, CallsOf(urls))
  {
    var calls := [];
    for i := 0 to |urls|
      invariant calls == Kept(urls[..i], CallOf)
    {
      KeptSnoc(urls, i, CallOf);
      var call := ClassifyString(urls[i]);
      if call.Some? {
        calls := calls + [call.value];
      }
    }
    assert urls[..|urls|] == urls;
    backendCalls' := backendCalls;
    if calls != [] {
      backendCalls' := backendCalls'[file := calls];
    }
  }

  function Done(allMatches: map<string, seq<string>>, todo: set<string>): map<string, seq<string>> {
    map f | f in allMatches && f !in todo :: allMatches[f]
  }

  lemma {:induction false} BackendAdd(done: map<string, seq<string>>, file: string, urls: seq<string>)
    requires file !in done
    ensures file !in Backend(done)
    ensures Backend(done[file := urls]) == WithCalls(Backend(done), file, CallsOf(urls))
  {
  }

  /** The backend half of `categorize_by_domain`. */
  method CategorizeBackend(allMatches: map<string, seq<string>>) returns (backendCalls: map<string, seq<BackendCall>>)
    ensures backendCalls == Backend(allMatches)
  {
    backendCalls := map[];
    var todo := allMatches.Keys;
    assert Done(allMatches, todo) == map[];
    while todo != {}
      invariant todo <= allMatches.Keys
      invariant backendCalls == Backend(Done(allMatches, todo))
      decreases |todo|
    {
      var file :| file in todo;
      ghost var done := Done(allMatches, todo);
      assert Done(allMatches, todo - {file}) == done[file := allMatches[file]];
      BackendAdd(done, file, allMatches[file]);
      backendCalls := CategorizeFile(backendCalls, file, allMatches[file]);
      todo := todo - {file};
    }
    assert Done(allMatches, todo) == allMatches;
  }

  /** Every call comes from one of the file's strings, at most one per
      string, and a file with no backend string gets no call. */
  lemma {:induction false} CallsOfFrom(urls: seq<string>)
    ensures |CallsOf(urls)| <= |urls|
    ensures forall c :: c in CallsOf(urls) ==> exists i :: 0 <= i < |urls| && CallOf(urls[i]) == Some(c)
    ensures CallsOf(urls) == [] <==> forall i :: 0 <= i < |urls| ==> CallOf(urls[i]).None?
  {
    KeptLength(urls, CallOf);
    KeptEmpty(urls, CallOf);
    forall c | c in CallsOf(urls)
      ensures exists i :: 0 <= i < |urls| && CallOf(urls[i]) == Some(c)
    {
      KeptFrom(urls, CallOf, c);
    }
  }

  /** An absolute URL is never a backend call; a quoted `/api` literal is
      stored with its endpoint and raw parameters. */
  lemma {:induction false} ApiLiteralCall(q: char, path: string, query: string)
    requires q in Quotes && '?' !in path
    ensures var lit := [q] + "/api" + path + "?" + query + [q];
      CallOf(lit) == Some(BackendCall(lit, "/api" + path, LastWins(Pairs(query, Raw))))
  {
    var lit := [q] + "/api" + path + "?" + query + [q];
    LiteralFacts(q, path, query);
    LiteralCall(lit);
  }

  lemma {:induction false} LiteralFacts(q: char, path: string, query: string)
    requires q in Quotes && '?' !in path
    ensures var lit := [q] + "/api" + path + "?" + query + [q];
      && Strip(lit) == lit && !IsAbsolute(lit) && IsApiLiteral(lit)
      && ExtractedUrl(lit) == ("/api" + path, LastWins(Pairs(query, Raw)))
  {
    var base := "/api" + path;
    assert [q] + "/api" + path + "?" + query + [q] == [q] + base + "?" + query + [q];
    assert '?' !in "/api";
    ApiLiteralShape(q, base, query);
    ExtractedQuoted(q, base, query);
  }

  /** A string that starts with a quoted `/api` and ends with the quote is
      trimmed already and is an `/api` literal. */
  lemma {:induction false} ApiLiteralShape(q: char, base: string, query: string)
    requires q in Quotes && StartsWith(base, "/api")
    ensures var lit := [q] + base + "?" + query + [q];
      Strip(lit) == lit && !IsAbsolute(lit) && IsApiLiteral(lit)
  {
    var lit := [q] + base + "?" + query + [q];
    QuotedApiPrefix(q, base, query);
    assert q !in Whitespace;
    StripStable(lit, Whitespace);
    assert !IsAbsolute(lit) by {
      assert lit[0] != "http://"[0] && lit[0] != "https://"[0];
    }
    if q == '"' {
      assert [q] + "/api" == "\"/api";
    } else {
      assert [q] + "/api" == "'/api";
    }
  }

  lemma {:induction false} QuotedApiPrefix(q: char, base: string, query: string)
    requires StartsWith(base, "/api")
    ensures var lit := [q] + base + "?" + query + [q];
      StartsWith(lit, [q] + "/api") && lit[0] == q && lit[|lit| - 1] == q
  {
    var head := [q] + base;
    assert StartsWith(head, [q] + "/api") by {
      assert head[..5] == [q] + base[..4];
    }
    StartsWithMore(head, "?", [q] + "/api");
    StartsWithMore(head + "?", query, [q] + "/api");
    StartsWithMore(head + "?" + query, [q], [q] + "/api");
  }

  lemma {:induction false} LiteralCall(lit: string)
    requires Strip(lit) == lit && !IsAbsolute(lit) && IsApiLiteral(lit)
    ensures CallOf(lit) == Some(BackendCall(lit, ExtractedUrl(lit).0, ExtractedUrl(lit).1))
  {
  }

  /** A quoted URL with a query is split inside its quotes. */
  lemma {:induction false} ExtractedQuoted(q: char, base: string, query: string)
    requires q in Quotes && '?' !in base
    ensures ExtractedUrl([q] + base + "?" + query + [q]) == (base, LastWins(Pairs(query, Raw)))
  {
    var inner := base + "?" + query;
    assert [q] + base + "?" + query + [q] == [q] + inner + [q];
    UnquotePair(q, inner);
    assert inner == base + ['?'] + query;
    SplitFirstOf(base, '?', query);
  }

  lemma {:induction false} AbsoluteDropped(raw: string)
    requires IsAbsolute(Strip(raw))
    ensures CallOf(raw) == None
  {
  }

  // ---------------------------------------------------------------------
  // Static asset base.

  /** The directory part of a stripped path: all segments but the last,
      each followed by `/`. */
  function StaticDir(path: string): string {
    DirOf(StripChars(path, {'/'}))
  }

  function DirOf(s: string): string {
    DirFrom(Split(s, '/'))
  }

  function DirFrom(parts: seq<string>): string {
    if |parts| >= 2 then Join(parts[..|parts| - 1], '/') + "/" else ""
  }

  /** `infer_base_static_url`, given the parsed scheme, network location
      and path. */
  function BaseStaticUrl(scheme: string, netloc: string, path: string): string {
    scheme + "://" + netloc + "/" + StaticDir(path)
  }

  lemma {:induction false} JoinLast(parts: seq<string>, sep: char)
    requires |parts| >= 2
    ensures Join(parts[..|parts| - 1], sep) + [sep] + parts[|parts| - 1] == Join(parts, sep)
    decreases |parts|
  {
    if |parts| > 2 {
      var rest := parts[1..];
      JoinLast(rest, sep);
      assert rest[..|rest| - 1] == parts[1..|parts| - 1];
      assert parts[..|parts| - 1][1..] == parts[1..|parts| - 1];
    }
  }

  /** The directory and the last segment in terms of the parts. */
  lemma {:induction false} DirFromLast(parts: seq<string>)
    requires |parts| >= 1
    ensures DirFrom(parts) + parts[|parts| - 1] == Join(parts, '/')
    ensures |parts| >= 2 ==> DirFrom(parts) != [] && DirFrom(parts)[|DirFrom(parts)| - 1] == '/'
    ensures |parts| == 1 ==> DirFrom(parts) == []
  {
    if |parts| >= 2 {
      JoinLast(parts, '/');
    }
  }

  /** The stripped path is the static directory followed by its last
      segment, which holds no `/`. */
  lemma {:induction false} StaticDirSplit(path: string)
    ensures exists last :: '/' !in last && StaticDir(path) + last == StripChars(path, {'/'})
  {
    var s := StripChars(path, {'/'});
    var parts := Split(s, '/');
    SplitJoin(s, '/');
    DirFromLast(parts);
    var last := parts[|parts| - 1];
    assert '/' !in last && DirOf(s) + last == s;
  }

  /** The directory is empty exactly when the stripped path has no `/`,
      and otherwise ends with one. */
  lemma {:induction false} StaticDirEmpty(path: string)
    ensures StaticDir(path) == "" <==> '/' !in StripChars(path, {'/'})
    ensures StaticDir(path) != "" ==> StaticDir(path)[|StaticDir(path)| - 1] == '/'
  {
    var s := StripChars(path, {'/'});
    DirEmpty(s);
  }

  lemma {:induction false} DirEmpty(s: string)
    ensures DirOf(s) == "" <==> '/' !in s
    ensures DirOf(s) != "" ==> DirOf(s)[|DirOf(s)| - 1] == '/'
  {
    var parts := Split(s, '/');
    SplitJoin(s, '/');
    DirFromLast(parts);
    var d := DirOf(s);
    if |parts| >= 2 {
      assert s[|d| - 1] == (d + parts[|parts| - 1])[|d| - 1] == '/';
    }
  }
}
