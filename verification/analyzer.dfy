/** The query-parameter analyzer: one store of per-endpoint records, fed by
    what the source scanners find in a script (a static query string, a
    template literal, an API call with a params object, a request body),
    and its serialization.  The scanners' regular expressions are not part
    of this model: what they match is taken as input. */
module Analyzer {
  import opened Text
  import opened Templates
  import opened Shapes
  import opened QueryString
  import opened Aggregator

  const ApiPrefix := "/api/"
  const Placeholder := "TEMPLATE_VAR"
  const DynamicSuffix := "=dynamic"

  // ---------------------------------------------------------------------
  // Template literals.

  function TemplateParams(exprs: seq<string>): (facts: seq<Fact>)
    ensures |facts| == |exprs|
    ensures forall i :: 0 <= i < |facts| ==> facts[i] == TemplateParam(exprs[i])
  {
    seq(|exprs|, i requires 0 <= i < |exprs| => TemplateParam(exprs[i]))
  }

  /** The text of a template before its first `${`. */
  function BasePath(content: string): string {
    var i := Find(content, DollarBrace);
    if i >= 0 then content[..i] else content
  }

  /** The `&`-pieces of a query template once every `${...}` is replaced by
      the placeholder. */
  function QueryTemplatePairs(query: string): seq<string> {
    Split(Substitute(Scan(query, DollarBrace), Placeholder), '&')
  }

  /** One piece of a query template: a plain `key=value` is a static value,
      a `key=...` holding the placeholder is a dynamic marker, and a piece
      without `=` gives nothing. */
  function QueryTemplateFact(pair: string): Option<Fact> {
    if '=' in pair && !Contains(pair, Placeholder) then
      var (key, value) := SplitFirst(pair, '=');
      Some(StaticParam(key, Some(value)))
    else if '=' in pair then
      Some(DynamicParam(SplitFirst(pair, '=').0 + DynamicSuffix))
    else None
  }

  /** What the path of a template literal contributes: a template with an
      interpolation whose text before the first `${` is an `/api/` path is
      recorded under its normalised key, with the file, the method and the
      interpolated expressions in order. */
  function PathObservations(content: string, file: string, httpMethod: string): seq<(string, Fact)> {
    if Contains(content, DollarBrace) && '}' in content && StartsWith(BasePath(content), ApiPrefix) then
      About(NormalizeEndpoint(content), [File(file), HttpMethod(httpMethod)] + TemplateParams(TemplateVars(content)))
    else []
  }

  /** What the query of a template literal contributes: under the raw text
      before the first `?`, the file, then the query's expressions, then one
      fact per piece that has an `=`. */
  function QueryObservations(content: string, file: string): seq<(string, Fact)> {
    if Contains(content, ApiPrefix) && '?' in content then
      var (endpoint, query) := SplitFirst(content, '?');
      if !StartsWith(endpoint, ApiPrefix) then []
      else if query == [] then About(endpoint, [File(file)])
      else About(endpoint, [File(file)] + TemplateParams(TemplateVars(query)) + Kept(QueryTemplatePairs(query), QueryTemplateFact))
    else []
  }

  function TemplateObservations(content: string, file: string, httpMethod: string): seq<(string, Fact)> {
    PathObservations(content, file, httpMethod) + QueryObservations(content, file)
  }

  // ---------------------------------------------------------------------
  // API calls with a params object.

  /** The change of parenthesis depth over `s`. */
  function Delta(c: char): int {
    if c == '(' then 1 else if c == ')' then -1 else 0
  }

  function Depth(s: string): int
    decreases |s|
  {
    if s == [] then 0 else Depth(s[..|s| - 1]) + Delta(s[|s| - 1])
  }

  /** How far past the start of a call the parenthesis scan looks. */
  const ScanWindow := 2000

  /** The counter of the scan, started at `init`, reaches zero on the `)`
      at `k`. */
  predicate ClosesAt(content: string, start: nat, init: int, k: nat)
    requires start <= k < |content|
  {
    content[k] == ')' && init + Depth(content[start..k + 1]) == 0
  }

  function Limit(content: string, start: nat): nat {
    if start + ScanWindow < |content| then start + ScanWindow else |content|
  }

  /** The first `k` from `from` on, inside the window, where the scan
      closes. */
  function FirstClose(content: string, start: nat, init: int, from: nat): (k: Option<nat>)
    requires start <= from <= Limit(content, start)
    ensures k.Some? ==> from <= k.value < Limit(content, start) && ClosesAt(content, start, init, k.value)
    ensures k.Some? ==> forall j :: from <= j < k.value ==> !ClosesAt(content, start, init, j)
    ensures k.None? ==> forall j :: from <= j < Limit(content, start) ==> !ClosesAt(content, start, init, j)
    decreases Limit(content, start) - from
  {
    if from == Limit(content, start) then None
    else if ClosesAt(content, start, init, from) then Some(from)
    else FirstClose(content, start, init, from + 1)
  }

  /** The first `)` at or after `start` (`content.find(')', start)`). */
  function NextClose(content: string, start: nat): (k: Option<nat>)
    requires start <= |content|
    ensures k.Some? ==> start <= k.value < |content| && content[k.value] == ')'
    ensures k.Some? ==> forall j :: start <= j < k.value ==> content[j] != ')'
    ensures k.None? ==> forall j :: start <= j < |content| ==> content[j] != ')'
    decreases |content| - start
  {
    if start == |content| then None
    else if content[start] == ')' then Some(start)
    else NextClose(content, start + 1)
  }

  /** Where the call starting at `start` ends: the first place the scan
      closes, or else the next `)`; `None` when there is no `)` at all. */
  function CallEnd(content: string, start: nat, init: int): Option<nat>
    requires start <= |content|
  {
    var k := FirstClose(content, start, init, start);
    if k.Some? then k else NextClose(content, start)
  }

  /** The counter as the source starts it: at one, although the scan begins
      at the start of the call's name and so also counts the call's own
      `(`. */
  const AsWrittenInit := 1

  /** The counter started at zero, so that the call's own `(` opens depth
      one and its matching `)` closes it. */
  const IntendedInit := 0

  /** The parenthesis scan. */
  method FindCallEnd(content: string, start: nat, init: int) returns (end: Option<nat>)
    requires start <= |content|
    ensures end == CallEnd(content, start, init)
  {
    var openParens := init;
    var pos := start;
    var maxPos := if start + ScanWindow < |content| then start + ScanWindow else |content|;
    end := None;
    while pos < maxPos
      invariant start <= pos <= maxPos
      invariant openParens == init + Depth(content[start..pos])
      invariant FirstClose(content, start, init, start) == FirstClose(content, start, init, pos)
      decreases maxPos - pos
    {
      assert content[start..pos + 1][..pos - start] == content[start..pos];
      if content[pos] == '(' {
        openParens := openParens + 1;
      } else if content[pos] == ')' {
        openParens := openParens - 1;
        if openParens == 0 {
          end := Some(pos);
          break;
        }
      }
      pos := pos + 1;
    }
    if end.None? {
      end := NextClose(content, start);
    }
  }

  /** One `key: value` pair of a params object: a value in matching quotes
      is a static value with every surrounding quote removed; anything else
      is a dynamic marker. */
  function ParamsObjectFact(key: string, value: string): Fact {
    var k := Strip(key);
    var v := Strip(value);
    if QuotedBy(v, '\'') || QuotedBy(v, '"') then StaticParam(k, Some(StripChars(v, Quotes)))
    else DynamicParam(k + DynamicSuffix)
  }

  function ParamsObjectFacts(pairs: seq<(string, string)>): (facts: seq<Fact>)
    ensures |facts| == |pairs|
    ensures forall i :: 0 <= i < |pairs| ==> facts[i] == ParamsObjectFact(pairs[i].0, pairs[i].1)
  {
    seq(|pairs|, i requires 0 <= i < |pairs| => ParamsObjectFact(pairs[i].0, pairs[i].1))
  }

  /** What an API call contributes: nothing when no `)` follows it;
      otherwise the file, the method and one fact per pair of the params
      object found in the call's text.  `paramsOf` stands for the params
      pattern applied to that text. */
  function CallObservations(content: string, start: nat, endpoint: string, file: string, httpMethod: string,
                            paramsOf: string -> seq<(string, string)>): seq<(string, Fact)>
    requires start <= |content|
  {
    match CallEnd(content, start, IntendedInit)
    case None => []
    case Some(end) =>
      About(endpoint, [File(file), HttpMethod(httpMethod)] + ParamsObjectFacts(paramsOf(content[start..end])))
  }

  // ---------------------------------------------------------------------
  // The per-piece rules.

  /** A piece of a query template is read back from its fact: no `=`
      gives nothing; a static value is the piece's `key=value` itself; a
      dynamic marker names the text before the first `=` of a piece that
      holds an interpolation. */
  lemma {:induction false} QueryTemplateFactCases(pair: string)
    ensures QueryTemplateFact(pair).None? <==> '=' !in pair
    ensures QueryTemplateFact(pair).Some? && QueryTemplateFact(pair).value.StaticParam? ==>
      var f := QueryTemplateFact(pair).value;
      && f.value.Some?
      && pair == f.key + "=" + f.value.value
      && '=' !in f.key
      && !Contains(pair, Placeholder)
    ensures QueryTemplateFact(pair).Some? && QueryTemplateFact(pair).value.DynamicParam? ==>
      var p := QueryTemplateFact(pair).value.pattern;
      && Contains(pair, Placeholder)
      && EndsWith(p, DynamicSuffix)
      && '=' !in p[..|p| - |DynamicSuffix|]
      && StartsWith(pair, p[..|p| - |DynamicSuffix|] + "=")
  {
    if '=' in pair && Contains(pair, Placeholder) {
      var (k, rest) := SplitFirst(pair, '=');
      var p := k + DynamicSuffix;
      assert p[..|p| - |DynamicSuffix|] == k;
      assert p[|p| - |DynamicSuffix|..] == DynamicSuffix;
      assert pair[..|k| + 1] == k + "=" by {
        assert pair == k + "=" + rest;
      }
    }
  }

  lemma {:induction false} ContainsShifted(a: string, b: string)
    requires Contains(b, Placeholder)
    ensures Contains(a + b, Placeholder)
  {
    var i := Find(b, Placeholder);
    assert (a + b)[|a| + i..|a| + i + |Placeholder|] == b[i..i + |Placeholder|];
    assert OccursAt(a + b, Placeholder, |a| + i);
  }

  /** `key=value` with a plain value is that static value. */
  lemma {:induction false} QueryPieceStatic(key: string, value: string)
    requires '=' !in key && !Contains(key + "=" + value, Placeholder)
    ensures QueryTemplateFact(key + "=" + value) == Some(StaticParam(key, Some(value)))
  {
    SplitFirstOf(key, '=', value);
  }

  /** `key=value` with an interpolation in the value is a dynamic marker
      for the key. */
  lemma {:induction false} QueryPieceDynamic(key: string, value: string)
    requires '=' !in key && Contains(value, Placeholder)
    ensures QueryTemplateFact(key + "=" + value) == Some(DynamicParam(key + DynamicSuffix))
  {
    SplitFirstOf(key, '=', value);
    ContainsShifted(key + "=", value);
  }

  /** A params-object value in matching quotes is a static value without
      its quotes. */
  lemma {:induction false} ParamsObjectLiteral(key: string, q: char, x: string)
    requires q in Quotes
    requires x != [] && x[0] !in Quotes && x[|x| - 1] !in Quotes
    ensures ParamsObjectFact(key, [q] + x + [q]) == StaticParam(Strip(key), Some(x))
  {
    var v := [q] + x + [q];
    assert v[0] == q && v[|v| - 1] == q;
    assert q !in Whitespace;
    StripStable(v, Whitespace);
    StripCharsPadded(x, q, Quotes);
  }

  /** A params-object value is static exactly when, stripped, it is in
      matching quotes; anything else marks its key dynamic. */
  lemma {:induction false} ParamsObjectFactCases(key: string, value: string)
    ensures var v, f := Strip(value), ParamsObjectFact(key, value);
      f.StaticParam? <==> |v| > 0 && v[0] in Quotes && v[|v| - 1] == v[0]
    ensures var f := ParamsObjectFact(key, value);
      f.StaticParam? ==> var s := f.value.value;
      s == [] || (s[0] !in Quotes && s[|s| - 1] !in Quotes)
    ensures var f := ParamsObjectFact(key, value);
      f.DynamicParam? ==> f.pattern == Strip(key) + DynamicSuffix
  {
    var v := Strip(value);
    var quoted := QuotedBy(v, '\'') || QuotedBy(v, '"');
    assert quoted <==> |v| > 0 && v[0] in Quotes && v[|v| - 1] == v[0];
    if quoted {
      var s := StripChars(v, Quotes);
      assert ParamsObjectFact(key, value) == StaticParam(Strip(key), Some(s));
    } else {
      assert ParamsObjectFact(key, value) == DynamicParam(Strip(key) + DynamicSuffix);
    }
  }

  // ---------------------------------------------------------------------
  // Where the scan ends a call.

  /** Every prefix of `s` has as many `(` as `)` or more, and the whole
      has as many. */
  predicate Balanced(s: string) {
    Depth(s) == 0 && forall i :: 0 <= i <= |s| ==> Depth(s[..i]) >= 0
  }

  predicate NoParens(s: string) {
    '(' !in s && ')' !in s
  }

  lemma {:induction false} DepthAppend(a: string, b: string)
    ensures Depth(a + b) == Depth(a) + Depth(b)
    decreases |b|
  {
    if b != [] {
      assert (a + b)[..|a + b| - 1] == a + b[..|b| - 1];
      DepthAppend(a, b[..|b| - 1]);
    } else {
      assert a + b == a;
    }
  }

  lemma {:induction false} NoParensDepth(s: string)
    requires NoParens(s)
    ensures Depth(s) == 0
    decreases |s|
  {
    if s != [] {
      assert s[|s| - 1] in s;
      assert forall c :: c in s[..|s| - 1] ==> c in s;
      NoParensDepth(s[..|s| - 1]);
    }
  }

  /** The depth after the `p`-th character of a call `name(args)`: zero in
      the name, one or more from its `(` up to its last argument, zero on
      its `)`. */
  lemma {:induction false} CallPrefixDepth(name: string, args: string, p: nat)
    requires NoParens(name) && Balanced(args)
    requires p < |name| + |args| + 2
    ensures var c := name + "(" + args + ")";
      && (p < |name| ==> Depth(c[..p + 1]) == 0 && c[p] != ')')
      && (|name| <= p < |name| + |args| + 1 ==> Depth(c[..p + 1]) >= 1)
      && (p == |name| + |args| + 1 ==> Depth(c[..p + 1]) == 0 && c[p] == ')')
  {
    var c := name + "(" + args + ")";
    if p < |name| {
      assert c[..p + 1] == name[..p + 1];
      assert c[p] == name[p];
      assert forall x :: x in name[..p + 1] ==> x in name;
      NoParensDepth(name[..p + 1]);
    } else {
      NoParensDepth(name);
      assert Depth("(") == Depth("(" [..0]) + Delta('(');
      var i := p - |name|;
      DepthAppend(name, "(");
      if i <= |args| {
        assert c[..p + 1] == name + "(" + args[..i];
        DepthAppend(name + "(", args[..i]);
      } else {
        assert c[..p + 1] == c;
        assert Depth(")") == Depth(")" [..0]) + Delta(')');
        DepthAppend(name + "(", args);
        DepthAppend(name + "(" + args, ")");
      }
    }
  }

  /** The first place the scan closes, when it is `m`. */
  lemma {:induction false} FirstCloseAt(content: string, start: nat, init: int, m: nat)
    requires start <= m < Limit(content, start)
    requires ClosesAt(content, start, init, m)
    requires forall j :: start <= j < m ==> !ClosesAt(content, start, init, j)
    ensures CallEnd(content, start, init) == Some(m)
  {
    var k := FirstClose(content, start, init, start);
  }

  /** A call `name(args)` at `start` whose arguments are balanced and that
      fits in the window: the corrected scan ends it on its own `)`. */
  lemma {:induction false} IntendedFindsMatch(content: string, start: nat, name: string, args: string)
    requires NoParens(name) && Balanced(args)
    requires start + |name| + |args| + 2 <= Limit(content, start)
    requires content[start..start + |name| + |args| + 2] == name + "(" + args + ")"
    ensures CallEnd(content, start, IntendedInit) == Some(start + |name| + |args| + 1)
  {
    var c := name + "(" + args + ")";
    var m := start + |name| + |args| + 1;
    WindowPrefix(content, start, c, m);
    CallPrefixDepth(name, args, m - start);
    forall j | start <= j < m
      ensures !ClosesAt(content, start, IntendedInit, j)
    {
      WindowPrefix(content, start, c, j);
      CallPrefixDepth(name, args, j - start);
    }
    FirstCloseAt(content, start, IntendedInit, m);
  }

  /** The scan as written never closes inside such a call: its counter
      stays at one or more up to and including the call's own `)`. */
  lemma {:induction false} AsWrittenMissesMatch(content: string, start: nat, name: string, args: string)
    requires NoParens(name) && Balanced(args)
    requires start + |name| + |args| + 2 <= |content|
    requires content[start..start + |name| + |args| + 2] == name + "(" + args + ")"
    ensures forall j :: start <= j <= start + |name| + |args| + 1 ==> !ClosesAt(content, start, AsWrittenInit, j)
  {
    var c := name + "(" + args + ")";
    forall j | start <= j <= start + |name| + |args| + 1
      ensures !ClosesAt(content, start, AsWrittenInit, j)
    {
      WindowPrefix(content, start, c, j);
      CallPrefixDepth(name, args, j - start);
    }
  }

  /** Where `c` sits at `start`, the text scanned up to `j` is a prefix of
      `c`. */
  lemma {:induction false} WindowPrefix(content: string, start: nat, c: string, j: nat)
    requires start <= j < start + |c| <= |content|
    requires content[start..start + |c|] == c
    ensures content[start..j + 1] == c[..j - start + 1] && content[j] == c[j - start]
  {
    assert content[start..j + 1] == content[start..start + |c|][..j - start + 1];
  }

  /** A nested call: as written the scan stops at the inner `)`, cutting
      the call short; corrected, it stops at the call's own `)`. */
  lemma {:induction false} NestedCallEnd()
    ensures CallEnd("f(a(1))", 0, AsWrittenInit) == Some(5)
    ensures CallEnd("f(a(1))", 0, IntendedInit) == Some(6)
  {
    var s := "f(a(1))";
    BalancedArgs();
    AsWrittenMissesMatch(s, 0, "f", "a(1)");
    assert Limit(s, 0) == 7;
    assert FirstClose(s, 0, AsWrittenInit, 0).None?;
    assert NextClose(s, 0) == Some(5) by {
      assert s[0] != ')' && s[1] != ')' && s[2] != ')' && s[3] != ')' && s[4] != ')' && s[5] == ')';
    }
    IntendedFindsMatch(s, 0, "f", "a(1)");
  }

  /** A call inside another: as written the counter, started at one, only
      reaches zero on the enclosing call's `)`, one past the call's own;
      corrected, the scan stops at the call's own `)`. */
  lemma {:induction false} EnclosedCallEnd()
    ensures CallEnd("g(f(x))", 2, AsWrittenInit) == Some(6)
    ensures CallEnd("g(f(x))", 2, IntendedInit) == Some(5)
  {
    var s := "g(f(x))";
    EnclosedDepth();
    assert s[2..6] == "f" + "(" + "x" + ")";
    AsWrittenMissesMatch(s, 2, "f", "x");
    IntendedFindsMatch(s, 2, "f", "x");
    assert Limit(s, 2) == 7;
    assert s[2..7] == "f(x))";
    FirstCloseAt(s, 2, AsWrittenInit, 6);
  }

  lemma {:induction false} EnclosedDepth()
    ensures Balanced("x") && NoParens("f")
    ensures Depth("f(x))") == -1
  {
    var x, t := "x", "f(x))";
    assert x[..0] == [] && x[..1] == x;
    assert Depth(x[..0]) == 0 && Depth(x) == 0;
    assert t[..1] == "f" && t[..2] == "f(" && t[..3] == "f(x" && t[..4] == "f(x)";
    assert t[..4][..3] == t[..3] && t[..3][..2] == t[..2] && t[..2][..1] == t[..1] && t[..1][..0] == [];
    assert Depth(t[..1]) == 0 && Depth(t[..2]) == 1 && Depth(t[..3]) == 1 && Depth(t[..4]) == 0;
  }

  lemma {:induction false} BalancedArgs()
    ensures Balanced("a(1)") && NoParens("f")
  {
    var a := "a(1)";
    assert a[..0] == [] && a[..1] == "a" && a[..2] == "a(" && a[..3] == "a(1" && a[..4] == a;
    assert Depth("a") == 0 && Depth("a(") == 1 && Depth("a(1") == 1 && Depth(a) == 0;
  }

  // ---------------------------------------------------------------------
  // The store.

  class ApiQueryAnalyzer {
    /** `results['backend_endpoints']`: a record per endpoint. */
    var endpoints: map<string, Record>

    ghost predicate Valid()
      reads this
    {
      AllDistinct(endpoints)
    }

    constructor()
      ensures endpoints == map[]
      ensures Valid()
    {
      endpoints := map[];
    }

    /** A body is stored unless an equivalent one already is. */
    method AddBody(endpoint: string, body: BodyStructure)
      requires Valid()
      modifies this
      ensures endpoints == Observe(old(endpoints), endpoint, Body(body))
      ensures Valid()
    {
      var r := Lookup(endpoints, endpoint);
      var found := false;
      for i := 0 to |r.requestBodies|
        invariant forall j :: 0 <= j < i ==> !Equivalent(r.requestBodies[j], body)
      {
        if Equivalent(r.requestBodies[i], body) {
          found := true;
          break;
        }
      }
      assert found <==> HasEquivalent(r.requestBodies, body);
      if !found {
        endpoints := endpoints[endpoint := r.(requestBodies := r.requestBodies + [body])];
      } else {
        assert endpoint in endpoints;
      }
      ObserveDistinct(old(endpoints), endpoint, Body(body));
    }

    /** One observation. */
    method AddFact(endpoint: string, f: Fact)
      requires Valid()
      modifies this
      ensures endpoints == Observe(old(endpoints), endpoint, f)
      ensures Valid()
    {
      if f.Body? {
        AddBody(endpoint, f.body);
      } else {
        var r := Lookup(endpoints, endpoint);
        match f
        case File(n) => endpoints := endpoints[endpoint := r.(files := r.files + {n})];
        case StaticParam(k, v) => endpoints := endpoints[endpoint := r.(params := r.params[k := ValuesOf(r.params, k) + {v}])];
        case TemplateParam(e) => endpoints := endpoints[endpoint := r.(templateParams := r.templateParams + {e})];
        case DynamicParam(p) => endpoints := endpoints[endpoint := r.(dynamicPatterns := r.dynamicPatterns + {p})];
        case HttpMethod(m) => endpoints := endpoints[endpoint := r.(httpMethods := r.httpMethods + {m})];
        ObserveDistinct(old(endpoints), endpoint, f);
      }
    }

    /** Observations about one endpoint, in order. */
    method AddFacts(endpoint: string, facts: seq<Fact>)
      requires Valid()
      modifies this
      ensures endpoints == ObserveAll(old(endpoints), About(endpoint, facts))
      ensures Valid()
    {
      ghost var start := endpoints;
      for i := 0 to |facts|
        invariant endpoints == ObserveAll(start, About(endpoint, facts[..i]))
        invariant Valid()
      {
        AboutAppend(endpoint, facts[..i], [facts[i]]);
        assert facts[..i + 1] == facts[..i] + [facts[i]];
        ObserveAllAppend(start, About(endpoint, facts[..i]), About(endpoint, [facts[i]]));
        AddFact(endpoint, facts[i]);
      }
      assert facts[..|facts|] == facts;
    }

    /** A static query string found after an `/api/` path: the file, then
        every value of every parameter.  The keys are visited in no
        particular order, which the result does not depend on. */
    method RecordStaticQuery(endpoint: string, file: string, query: string, decode: string -> string)
      requires Valid()
      modifies this
      ensures endpoints == old(endpoints)[endpoint :=
        Summary(Lookup(old(endpoints), endpoint), {File(file)} + PairFacts(Pairs(query, decode)))]
      ensures Valid()
    {
      AddFact(endpoint, File(file));
      assert endpoints == ObserveAll(old(endpoints), About(endpoint, [File(file)]));
      ghost var e1 := endpoints;
      var params := ParseQueryString(query, decode);
      ghost var facts := AddGroups(endpoint, params);
      AboutAppend(endpoint, [File(file)], facts);
      ObserveAllAppend(old(endpoints), About(endpoint, [File(file)]), About(endpoint, facts));
      StaticQuerySummary(old(endpoints), endpoint, file, facts, params, Pairs(query, decode));
    }

    /** Every value of every parameter of a grouped query; `facts` are the
        observations in the order they were made. */
    method AddGroups(endpoint: string, params: map<string, seq<Option<string>>>) returns (ghost facts: seq<Fact>)
      requires Valid()
      modifies this
      ensures endpoints == ObserveAll(old(endpoints), About(endpoint, facts))
      ensures FactSet(facts) == GroupFacts(params)
      ensures Valid()
    {
      facts := [];
      var todo := params.Keys;
      assert params - todo == map[];
      while todo != {}
        invariant todo <= params.Keys
        invariant endpoints == ObserveAll(old(endpoints), About(endpoint, facts))
        invariant FactSet(facts) == GroupFacts(params - todo)
        invariant Valid()
        decreases |todo|
      {
        var key :| key in todo;
        var added := StaticFacts(key, params[key]);
        GroupFactsAdd(params, todo, key);
        FactSetAppend(facts, added);
        AddFacts(endpoint, added);
        ObserveAboutAppend(old(endpoints), endpoint, facts, added);
        facts := facts + added;
        todo := todo - {key};
      }
      assert params - todo == params;
    }

    /** One template literal found in a script, with the method guessed
        from the text before it. */
    method RecordTemplateLiteral(content: string, file: string, httpMethod: string)
      requires Valid()
      modifies this
      ensures endpoints == ObserveAll(old(endpoints), TemplateObservations(content, file, httpMethod))
      ensures Valid()
    {
      RecordTemplatePath(content, file, httpMethod);
      ghost var e1 := endpoints;
      RecordTemplateQuery(content, file);
      ObserveAllAppend(old(endpoints), PathObservations(content, file, httpMethod), QueryObservations(content, file));
    }

    /** The path of a template literal. */
    method RecordTemplatePath(content: string, file: string, httpMethod: string)
      requires Valid()
      modifies this
      ensures endpoints == ObserveAll(old(endpoints), PathObservations(content, file, httpMethod))
      ensures Valid()
    {
      if Contains(content, DollarBrace) && '}' in content {
        var basePath := BasePath(content);
        if StartsWith(basePath, ApiPrefix) {
          var key := NormalizeEndpoint(content);
          var templateVars := TemplateVars(content);
          AddFacts(key, [File(file), HttpMethod(httpMethod)]);
          AddFacts(key, TemplateParams(templateVars));
          AboutAppend(key, [File(file), HttpMethod(httpMethod)], TemplateParams(templateVars));
          ObserveAllAppend(old(endpoints), About(key, [File(file), HttpMethod(httpMethod)]), About(key, TemplateParams(templateVars)));
        }
      }
    }

    /** The query of a template literal. */
    method RecordTemplateQuery(content: string, file: string)
      requires Valid()
      modifies this
      ensures endpoints == ObserveAll(old(endpoints), QueryObservations(content, file))
      ensures Valid()
    {
      if Contains(content, ApiPrefix) && '?' in content {
        var (endpoint, queryTemplate) := SplitFirst(content, '?');
        if StartsWith(endpoint, ApiPrefix) {
          AddFacts(endpoint, [File(file)]);
          if queryTemplate != [] {
            ghost var rest := TemplateParams(TemplateVars(queryTemplate)) + Kept(QueryTemplatePairs(queryTemplate), QueryTemplateFact);
            RecordQueryTemplate(endpoint, queryTemplate);
            AboutAppend(endpoint, [File(file)], rest);
            assert [File(file)] + TemplateParams(TemplateVars(queryTemplate)) + Kept(QueryTemplatePairs(queryTemplate), QueryTemplateFact)
              == [File(file)] + rest;
            ObserveAllAppend(old(endpoints), About(endpoint, [File(file)]), About(endpoint, rest));
          }
        }
      }
    }

    /** The query part of a template literal: its expressions, then one
        fact per piece. */
    method RecordQueryTemplate(endpoint: string, queryTemplate: string)
      requires Valid()
      modifies this
      ensures endpoints == ObserveAll(old(endpoints),
        About(endpoint, TemplateParams(TemplateVars(queryTemplate)) + Kept(QueryTemplatePairs(queryTemplate), QueryTemplateFact)))
      ensures Valid()
    {
      AddFacts(endpoint, TemplateParams(TemplateVars(queryTemplate)));
      ghost var e1 := endpoints;
      var withPlaceholders := Substitute(Scan(queryTemplate, DollarBrace), Placeholder);
      var paramPairs := Split(withPlaceholders, '&');
      for i := 0 to |paramPairs|
        invariant endpoints == ObserveAll(e1, About(endpoint, Kept(paramPairs[..i], QueryTemplateFact)))
        invariant Valid()
      {
        KeptSnoc(paramPairs, i, QueryTemplateFact);
        ghost var before := Kept(paramPairs[..i], QueryTemplateFact);
        RecordQueryPiece(endpoint, paramPairs[i]);
        AboutAppend(endpoint, before, OptionSeq(QueryTemplateFact(paramPairs[i])));
        ObserveAllAppend(e1, About(endpoint, before), About(endpoint, OptionSeq(QueryTemplateFact(paramPairs[i]))));
      }
      assert paramPairs[..|paramPairs|] == paramPairs;
      AboutAppend(endpoint, TemplateParams(TemplateVars(queryTemplate)), Kept(QueryTemplatePairs(queryTemplate), QueryTemplateFact));
      ObserveAllAppend(old(endpoints), About(endpoint, TemplateParams(TemplateVars(queryTemplate))),
        About(endpoint, Kept(QueryTemplatePairs(queryTemplate), QueryTemplateFact)));
    }

    /** One `&`-piece of a query template. */
    method RecordQueryPiece(endpoint: string, pair: string)
      requires Valid()
      modifies this
      ensures endpoints == ObserveAll(old(endpoints), About(endpoint, OptionSeq(QueryTemplateFact(pair))))
      ensures Valid()
    {
      if '=' in pair && !Contains(pair, Placeholder) {
        var (key, value) := SplitFirst(pair, '=');
        AddFacts(endpoint, [StaticParam(key, Some(value))]);
      } else if '=' in pair {
        var key := SplitFirst(pair, '=').0;
        AddFacts(endpoint, [DynamicParam(key + DynamicSuffix)]);
      } else {
        assert About(endpoint, []) == [];
      }
    }

    /** An API call at `start`: the call's end is found, the file and the
        method are recorded, then the params object. */
    method ProcessApiCall(content: string, start: nat, endpoint: string, file: string, httpMethod: string,
                          paramsOf: string -> seq<(string, string)>)
      requires Valid()
      requires start <= |content|
      modifies this
      ensures endpoints == ObserveAll(old(endpoints), CallObservations(content, start, endpoint, file, httpMethod, paramsOf))
      ensures Valid()
    {
      var end := FindCallEnd(content, start, IntendedInit);
      if end.None? {
        return;
      }
      var callContent := content[start..end.value];
      var pairs := paramsOf(callContent);
      AddFacts(endpoint, [File(file), HttpMethod(httpMethod)] + ParamsObjectFacts(pairs));
    }

    /** A candidate request body: recorded when it is a braced object with
        at least one property and no equivalent body is stored yet. */
    method ExtractBodyStructure(endpoint: string, bodyText: string)
      requires Valid()
      modifies this
      ensures BodyOf(bodyText).None? ==> endpoints == old(endpoints)
      ensures BodyOf(bodyText).Some? ==> endpoints == Observe(old(endpoints), endpoint, Body(BodyOf(bodyText).value))
      ensures Valid()
    {
      var properties := ExtractBodyProperties(bodyText);
      if properties.Some? && properties.value != map[] {
        AddBody(endpoint, BodyStructure(JsonContentType, properties.value));
      }
    }

    /** `_prepare_for_serialization`: every record exported, with sets as
        lists. */
    method PrepareForSerialization() returns (result: map<string, ExportedRecord>)
      ensures result.Keys == endpoints.Keys
      ensures forall e :: e in result ==> Exports(endpoints[e], result[e])
    {
      result := map[];
      var todo := endpoints.Keys;
      while todo != {}
        invariant todo <= endpoints.Keys
        invariant result.Keys == endpoints.Keys - todo
        invariant forall e :: e in result ==> Exports(endpoints[e], result[e])
        decreases |todo|
      {
        var e :| e in todo;
        var x := ExportRecord(endpoints[e]);
        result := result[e := x];
        todo := todo - {e};
      }
    }
  }

  /** The static parameters a query string gives, one per piece. */
  function PairFacts(pairs: seq<Pair>): set<Fact> {
    set i | 0 <= i < |pairs| :: StaticParam(pairs[i].0, pairs[i].1)
  }

  /** The static parameters a grouped query holds. */
  function GroupFacts(params: map<string, seq<Option<string>>>): set<Fact> {
    set k, v | k in params && v in params[k] :: StaticParam(k, v)
  }

  lemma {:induction false} ObserveDistinct(store: map<string, Record>, endpoint: string, f: Fact)
    requires AllDistinct(store)
    ensures AllDistinct(Observe(store, endpoint, f))
  {
    ApplyProperties(Lookup(store, endpoint), f);
  }

  /** Observations about one endpoint change only its record, and change
      it as the facts do one after another. */
  lemma {:induction false} ObserveAllAbout(store: map<string, Record>, endpoint: string, facts: seq<Fact>)
    requires facts != []
    ensures ObserveAll(store, About(endpoint, facts)) == store[endpoint := ApplyAll(Lookup(store, endpoint), facts)]
    decreases |facts|
  {
    var init := facts[..|facts| - 1];
    AboutAppend(endpoint, init, [facts[|facts| - 1]]);
    assert init + [facts[|facts| - 1]] == facts;
    assert About(endpoint, facts)[..|facts| - 1] == About(endpoint, init);
    if init == [] {
      assert ApplyAll(Lookup(store, endpoint), init) == Lookup(store, endpoint);
    } else {
      ObserveAllAbout(store, endpoint, init);
    }
  }

  /** What a static query leaves in its endpoint's record. */
  lemma {:induction false} StaticQuerySummary(store: map<string, Record>, endpoint: string, file: string, facts: seq<Fact>,
                           params: map<string, seq<Option<string>>>, pairs: seq<Pair>)
    requires params == Grouped(pairs) && FactSet(facts) == GroupFacts(params)
    ensures ObserveAll(store, About(endpoint, [File(file)] + facts))
      == store[endpoint := Summary(Lookup(store, endpoint), {File(file)} + PairFacts(pairs))]
  {
    assert forall i :: 0 <= i < |facts| ==> facts[i] in FactSet(facts);
    ObserveAllAbout(store, endpoint, [File(file)] + facts);
    ApplyAllIsSummary(Lookup(store, endpoint), [File(file)] + facts);
    StaticQueryFacts(file, facts, params, pairs);
  }

  lemma {:induction false} StaticQueryFacts(file: string, facts: seq<Fact>, params: map<string, seq<Option<string>>>, pairs: seq<Pair>)
    requires params == Grouped(pairs) && FactSet(facts) == GroupFacts(params)
    ensures FactSet([File(file)] + facts) == {File(file)} + PairFacts(pairs)
  {
    FactSetAppend([File(file)], facts);
    assert [File(file)][0] == File(file);
    assert FactSet([File(file)]) == {File(file)};
    GroupFactsArePairFacts(pairs);
  }

  function StaticFacts(key: string, values: seq<Option<string>>): (facts: seq<Fact>)
    ensures |facts| == |values|
    ensures forall i :: 0 <= i < |facts| ==> facts[i] == StaticParam(key, values[i])
  {
    seq(|values|, i requires 0 <= i < |values| => StaticParam(key, values[i]))
  }

  lemma {:induction false} FactSetAppend(a: seq<Fact>, b: seq<Fact>)
    ensures FactSet(a + b) == FactSet(a) + FactSet(b)
  {
    forall f | f in FactSet(a + b) ensures f in FactSet(a) + FactSet(b) {
      var i :| 0 <= i < |a + b| && f == (a + b)[i];
      if i >= |a| { assert f == b[i - |a|]; }
    }
    forall f | f in FactSet(a) + FactSet(b) ensures f in FactSet(a + b) {
      if f in FactSet(a) {
        var i :| 0 <= i < |a| && f == a[i];
        assert f == (a + b)[i];
      } else {
        var i :| 0 <= i < |b| && f == b[i];
        assert f == (a + b)[|a| + i];
      }
    }
  }

  lemma {:induction false} GroupFactsAdd(params: map<string, seq<Option<string>>>, todo: set<string>, key: string)
    requires key in todo && key in params
    ensures GroupFacts(params - (todo - {key})) == GroupFacts(params - todo) + FactSet(StaticFacts(key, params[key]))
  {
    var sf := StaticFacts(key, params[key]);
    forall f | f in FactSet(sf) ensures f in GroupFacts(params - (todo - {key})) {
      var i :| 0 <= i < |sf| && f == sf[i];
      assert params[key][i] in params[key];
    }
  }

  /** Grouping loses no piece and adds none. */
  lemma {:induction false} GroupFactsArePairFacts(pairs: seq<Pair>)
    ensures GroupFacts(Grouped(pairs)) == PairFacts(pairs)
  {
    var g := Grouped(pairs);
    forall f | f in GroupFacts(g)
      ensures f in PairFacts(pairs)
    {
      var k, v :| k in g && v in g[k] && f == StaticParam(k, v);
      GroupedValues(pairs, k);
      var i := ValuesForIndex(pairs, k, v);
      assert f == StaticParam(pairs[i].0, pairs[i].1);
    }
    forall f | f in PairFacts(pairs)
      ensures f in GroupFacts(g)
    {
      var i :| 0 <= i < |pairs| && f == StaticParam(pairs[i].0, pairs[i].1);
      GroupedValues(pairs, pairs[i].0);
      IndexInValuesFor(pairs, i);
    }
  }

  lemma {:induction false} ValuesForIndex(pairs: seq<Pair>, k: string, v: Option<string>) returns (i: nat)
    requires v in ValuesFor(pairs, k)
    ensures i < |pairs| && pairs[i] == (k, v)
    decreases |pairs|
  {
    if pairs[0] == (k, v) {
      i := 0;
    } else {
      assert v in ValuesFor(pairs[1..], k);
      var j := ValuesForIndex(pairs[1..], k, v);
      i := j + 1;
    }
  }

  lemma {:induction false} IndexInValuesFor(pairs: seq<Pair>, i: nat)
    requires i < |pairs|
    ensures pairs[i].1 in ValuesFor(pairs, pairs[i].0)
    decreases |pairs|
  {
    if i > 0 {
      IndexInValuesFor(pairs[1..], i - 1);
    }
  }

  // ---------------------------------------------------------------------
  // Serialization.

  /** `list(s)`: the elements of a set, each once, in some order. */
  method ListOf<T(==,!new)>(s: set<T>) returns (xs: seq<T>)
    ensures Lists(xs, s)
  {
    xs := [];
    var rest := s;
    while rest != {}
      invariant rest <= s
      invariant forall x :: x in xs ==> x in s && x !in rest
      invariant forall x :: x in s ==> x in xs || x in rest
      invariant forall i, j :: 0 <= i < j < |xs| ==> xs[i] != xs[j]
      decreases |rest|
    {
      var x :| x in rest;
      xs := xs + [x];
      rest := rest - {x};
    }
  }

  /** Every parameter's values made a list. */
  method ExportParams(params: map<string, set<Option<string>>>) returns (lists: map<string, seq<Option<string>>>)
    ensures lists.Keys == params.Keys
    ensures forall k :: k in lists ==> Lists(lists[k], params[k])
  {
    lists := map[];
    var todo := params.Keys;
    while todo != {}
      invariant todo <= params.Keys
      invariant lists.Keys == params.Keys - todo
      invariant forall k :: k in lists ==> Lists(lists[k], params[k])
      decreases |todo|
    {
      var k :| k in todo;
      var values := ListOf(params[k]);
      lists := lists[k := values];
      todo := todo - {k};
    }
  }

  /** One record with its sets made lists and `["GET"]` for no methods. */
  method ExportRecord(r: Record) returns (x: ExportedRecord)
    ensures Exports(r, x)
  {
    var files := ListOf(r.files);
    var params := ExportParams(r.params);
    var templateParams := ListOf(r.templateParams);
    var dynamicPatterns := ListOf(r.dynamicPatterns);
    var httpMethods;
    if r.httpMethods != {} {
      httpMethods := ListOf(r.httpMethods);
    } else {
      httpMethods := [DefaultMethod];
    }
    x := ExportedRecord(files, params, templateParams, dynamicPatterns, httpMethods, r.requestBodies);
  }
}
