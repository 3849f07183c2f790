/** OpenAPI path templating for the analyzer's endpoint keys: `${x}`
    becomes `{x}`, and each `{PARAM}` placeholder becomes a numbered path
    parameter `{param1}`, `{param2}`, ... from the left; then the names of
    the path parameters, numbered ones first. */
module OpenApiPaths {
  import opened Text
  import opened Templates

  const ParamToken := "{PARAM}"

  function ParamName(k: nat): string {
    "param" + NatToString(k)
  }

  function ParamRef(k: nat): string {
    "{" + ParamName(k) + "}"
  }

  /** `re.sub(r'\${([^}]+)}', r'{\1}', s)`. */
  function Rebraced(s: string): string {
    Render(Scan(s, DollarBrace), Brace)
  }

  /** `s.replace(x, y, 1)`: the first occurrence of `x` becomes `y`. */
  function ReplaceFirst(s: string, x: string, y: string): string {
    var i := Find(s, x);
    if i < 0 then s else s[..i] + y + s[i + |x|..]
  }

  /** The text with its placeholders numbered from `k` on, left to right. */
  function Numbered(s: string, k: nat): string
    decreases |s|
  {
    var i := Find(s, ParamToken);
    if i < 0 then s else s[..i] + ParamRef(k) + Numbered(s[i + |ParamToken|..], k + 1)
  }

  /** How many placeholders the numbering replaces. */
  function Placeholders(s: string): nat
    decreases |s|
  {
    var i := Find(s, ParamToken);
    if i < 0 then 0 else 1 + Placeholders(s[i + |ParamToken|..])
  }

  function ParamNames(from: nat, n: nat): (names: seq<string>)
    ensures |names| == n
    ensures forall j :: 0 <= j < n ==> names[j] == ParamName(from + j)
  {
    seq(n, j requires 0 <= j < n => ParamName(from + j))
  }

  /** `for x in xs: if x not in r: r.append(x)`, starting from `init`. */
  function AppendNew(init: seq<string>, xs: seq<string>): seq<string>
    decreases |xs|
  {
    if xs == [] then init
    else
      var r := AppendNew(init, xs[..|xs| - 1]);
      if xs[|xs| - 1] in r then r else r + [xs[|xs| - 1]]
  }

  predicate Distinct(xs: seq<string>) {
    forall i, j :: 0 <= i < j < |xs| ==> xs[i] != xs[j]
  }

  /** The path an endpoint key is published under. */
  function NormalizedPath(endpoint: string): string {
    Numbered(Rebraced(endpoint), 1)
  }

  /** Its path parameters: `param1` ... for the placeholders, then every
      other `{name}` of the path, each once. */
  function PathParams(endpoint: string): seq<string> {
    AppendNew(ParamNames(1, Placeholders(Rebraced(endpoint))), Exprs(Scan(NormalizedPath(endpoint), Brace)))
  }

  /** `_normalize_path`: the placeholder loop, then the other names. */
  method NormalizePath(endpoint: string) returns (path: string, pathParams: seq<string>)
    ensures path == NormalizedPath(endpoint)
    ensures pathParams == PathParams(endpoint)
    ensures !Contains(path, ParamToken)
  {
    path := Rebraced(endpoint);
    path, pathParams := NumberPlaceholders(path);
    pathParams := AppendNames(pathParams, Exprs(Scan(path, Brace)));
  }

  /** The placeholder loop of `_normalize_path`: each turn replaces the
      first `{PARAM}` by the next numbered reference and records its name. */
  method NumberPlaceholders(s: string) returns (path: string, names: seq<string>)
    ensures path == Numbered(s, 1) && !Contains(path, ParamToken)
    ensures names == ParamNames(1, Placeholders(s))
  {
    path := s;
    names := [];
    var paramCount: nat := 1;
    while Contains(path, ParamToken)
      invariant Numbered(path, paramCount) == Numbered(s, 1)
      invariant paramCount - 1 + Placeholders(path) == Placeholders(s)
      invariant paramCount >= 1 && names == ParamNames(1, paramCount - 1)
      decreases Placeholders(path)
    {
      NumberedStep(path, paramCount);
      ParamNamesSnoc(1, paramCount - 1);
      path := ReplaceFirst(path, ParamToken, ParamRef(paramCount));
      names := names + [ParamName(paramCount)];
      paramCount := paramCount + 1;
    }
    NumberedNone(path, paramCount);
  }

  /** `for x in xs: if x not in r: r.append(x)`. */
  method AppendNames(init: seq<string>, names: seq<string>) returns (r: seq<string>)
    ensures r == AppendNew(init, names)
  {
    r := init;
    for j := 0 to |names|
      invariant r == AppendNew(init, names[..j])
    {
      assert names[..j + 1][..j] == names[..j];
      if names[j] !in r {
        r := r + [names[j]];
      }
    }
    assert names[..|names|] == names;
  }

  // ---------------------------------------------------------------------
  // Where placeholders can occur once some are numbered.

  lemma {:induction false} RefShape(k: nat)
    ensures |ParamRef(k)| >= 8 && ParamRef(k)[0] == '{' && ParamRef(k)[1] == 'p'
    ensures forall j :: 1 <= j < |ParamRef(k)| ==> ParamRef(k)[j] != '{'
  {
    var d := NatToString(k);
    assert ParamRef(k) == "{param" + d + "}";
    forall j | 1 <= j < |ParamRef(k)|
      ensures ParamRef(k)[j] != '{'
    {
      if 6 <= j < 6 + |d| {
        assert ParamRef(k)[j] == d[j - 6];
        assert IsDigit(d[j - 6]);
      }
    }
  }

  ghost predicate Clean(a: string) {
    forall p: nat :: !OccursAt(a, ParamToken, p)
  }

  /** Text before the first placeholder has none. */
  lemma {:induction false} PrefixClean(s: string)
    requires Find(s, ParamToken) >= 0
    ensures Clean(s[..Find(s, ParamToken)])
  {
    var i := Find(s, ParamToken);
    forall p: nat
      ensures !OccursAt(s[..i], ParamToken, p)
    {
      if p + |ParamToken| <= i {
        assert s[..i][p..p + |ParamToken|] == s[p..p + |ParamToken|];
        assert !OccursAt(s, ParamToken, p);
      }
    }
  }

  /** After clean text, nothing that starts with `{` lets a placeholder
      start before it. */
  lemma {:induction false} Before(a: string, x: string, p: nat)
    requires Clean(a) && x != [] && x[0] == '{' && p < |a|
    ensures !OccursAt(a + x, ParamToken, p)
  {
    var t := a + x;
    if p + |ParamToken| <= |a| {
      assert a[p..p + |ParamToken|] == t[p..p + |ParamToken|];
      assert !OccursAt(a, ParamToken, p);
    } else if p + |ParamToken| <= |t| {
      assert t[p..p + |ParamToken|][|a| - p] == t[|a|] == '{';
    }
  }

  /** After clean text and a numbered reference, a placeholder can only
      start in the text that follows. */
  lemma {:induction false} ShiftedAt(a: string, k: nat, y: string, p: nat)
    requires Clean(a)
    ensures OccursAt(a + ParamRef(k) + y, ParamToken, p) <==>
      (p >= |a| + |ParamRef(k)| && OccursAt(y, ParamToken, p - |a| - |ParamRef(k)|))
  {
    var r := ParamRef(k);
    var t := a + r + y;
    if p < |a| {
      Before(a, r + y, p);
      assert a + (r + y) == t;
    } else if p < |a| + |r| {
      InsideRef(a, k, y, p);
    } else if p + |ParamToken| <= |t| {
      assert t[p..p + |ParamToken|] == y[p - |a| - |r|..p - |a| - |r| + |ParamToken|];
    }
  }

  /** No placeholder starts inside a numbered reference. */
  lemma {:induction false} InsideRef(a: string, k: nat, y: string, p: nat)
    requires |a| <= p < |a| + |ParamRef(k)|
    ensures !OccursAt(a + ParamRef(k) + y, ParamToken, p)
  {
    var r := ParamRef(k);
    var t := a + r + y;
    RefShape(k);
    if p + |ParamToken| <= |t| {
      var w := t[p..p + |ParamToken|];
      if p == |a| {
        assert w[1] == t[p + 1] == r[1] == 'p';
      } else {
        assert w[0] == t[p] == r[p - |a|];
      }
      assert w != ParamToken;
    }
  }

  lemma {:induction false} FindShifted(a: string, k: nat, y: string)
    requires Clean(a)
    ensures Find(a + ParamRef(k) + y, ParamToken)
      == if Find(y, ParamToken) < 0 then -1 else |a| + |ParamRef(k)| + Find(y, ParamToken)
  {
    if Find(y, ParamToken) >= 0 {
      FindShiftedFound(a, k, y);
    } else {
      FindShiftedNone(a, k, y);
    }
  }

  lemma {:induction false} FindShiftedFound(a: string, k: nat, y: string)
    requires Clean(a) && Find(y, ParamToken) >= 0
    ensures Find(a + ParamRef(k) + y, ParamToken) == |a| + |ParamRef(k)| + Find(y, ParamToken)
  {
    var t := a + ParamRef(k) + y;
    var n := |a| + |ParamRef(k)|;
    var g := Find(y, ParamToken);
    ShiftedAt(a, k, y, n + g);
    var f := Find(t, ParamToken);
    assert f >= 0 && f <= n + g;
    ShiftedAt(a, k, y, f);
    assert f - n >= g;
  }

  lemma {:induction false} FindShiftedNone(a: string, k: nat, y: string)
    requires Clean(a) && Find(y, ParamToken) < 0
    ensures Find(a + ParamRef(k) + y, ParamToken) == -1
  {
    var t := a + ParamRef(k) + y;
    forall p: nat
      ensures !OccursAt(t, ParamToken, p)
    {
      ShiftedAt(a, k, y, p);
    }
  }

  /** The first placeholder after clean text is the first one. */
  lemma {:induction false} FindAtToken(a: string, y: string)
    requires Clean(a)
    ensures Find(a + ParamToken + y, ParamToken) == |a|
  {
    var t := a + ParamToken + y;
    assert t[|a|..|a| + |ParamToken|] == ParamToken;
    assert OccursAt(t, ParamToken, |a|);
    forall p: nat | p < |a|
      ensures !OccursAt(t, ParamToken, p)
    {
      Before(a, ParamToken + y, p);
      assert a + (ParamToken + y) == t;
    }
    var f := Find(t, ParamToken);
    assert f >= 0;
    assert f >= |a|;
  }

  // ---------------------------------------------------------------------
  // Properties of the numbering.

  /** One turn of the loop: replacing the first placeholder by `{paramk}`
      leaves the rest to be numbered from `k + 1`, with one placeholder
      fewer. */
  lemma {:induction false} NumberedStep(s: string, k: nat)
    requires Contains(s, ParamToken)
    ensures Numbered(ReplaceFirst(s, ParamToken, ParamRef(k)), k + 1) == Numbered(s, k)
    ensures Placeholders(ReplaceFirst(s, ParamToken, ParamRef(k))) + 1 == Placeholders(s)
  {
    var i := Find(s, ParamToken);
    var a := s[..i];
    var y := s[i + |ParamToken|..];
    var r := ReplaceFirst(s, ParamToken, ParamRef(k));
    assert r == a + ParamRef(k) + y;
    assert Clean(a) by {
      PrefixClean(s);
    }
    assert Numbered(r, k + 1) == a + ParamRef(k) + Numbered(y, k + 1) && Placeholders(r) == Placeholders(y) by {
      NumberedShift(a, k, y, k + 1);
    }
    assert Numbered(s, k) == a + ParamRef(k) + Numbered(y, k + 1) && Placeholders(s) == 1 + Placeholders(y) by {
      NumberedUnfold(s, k);
    }
  }

  /** A numbered reference after clean text hides nothing: the numbering
      goes on in the text after it. */
  lemma {:induction false} NumberedShift(a: string, k: nat, y: string, j: nat)
    requires Clean(a)
    ensures Numbered(a + ParamRef(k) + y, j) == a + ParamRef(k) + Numbered(y, j)
    ensures Placeholders(a + ParamRef(k) + y) == Placeholders(y)
  {
    FindShifted(a, k, y);
    NumberedAfter(a + ParamRef(k), y, j);
  }

  /** Text in front of the first placeholder is kept as it is. */
  lemma {:induction false} NumberedAfter(c: string, y: string, j: nat)
    requires Find(c + y, ParamToken) == if Find(y, ParamToken) < 0 then -1 else |c| + Find(y, ParamToken)
    ensures Numbered(c + y, j) == c + Numbered(y, j)
    ensures Placeholders(c + y) == Placeholders(y)
  {
    if Find(y, ParamToken) >= 0 {
      NumberedAfterFound(c, y, j);
    } else {
      NumberedNone(c + y, j);
      NumberedNone(y, j);
    }
  }

  lemma {:induction false} NumberedAfterFound(c: string, y: string, j: nat)
    requires Find(y, ParamToken) >= 0 && Find(c + y, ParamToken) == |c| + Find(y, ParamToken)
    ensures Numbered(c + y, j) == c + Numbered(y, j)
    ensures Placeholders(c + y) == Placeholders(y)
  {
    var g := Find(y, ParamToken);
    var pre := y[..g];
    var post := y[g + |ParamToken|..];
    var rest := Numbered(post, j + 1);
    assert Numbered(c + y, j) == c + pre + ParamRef(j) + rest && Placeholders(c + y) == 1 + Placeholders(post) by {
      SlicesAfter(c, y, g, |ParamToken|);
      NumberedUnfoldAt(c + y, j, |c| + g, c + pre, post);
    }
    assert Numbered(y, j) == pre + ParamRef(j) + rest && Placeholders(y) == 1 + Placeholders(post) by {
      NumberedUnfoldAt(y, j, g, pre, post);
    }
    Associative(c, pre, ParamRef(j), rest);
  }

  lemma {:induction false} NumberedUnfoldAt(s: string, k: nat, i: nat, pre: string, post: string)
    requires Find(s, ParamToken) == i && i + |ParamToken| <= |s|
    requires pre == s[..i] && post == s[i + |ParamToken|..]
    ensures Numbered(s, k) == pre + ParamRef(k) + Numbered(post, k + 1)
    ensures Placeholders(s) == 1 + Placeholders(post)
  {
  }

  lemma {:induction false} NumberedNone(s: string, k: nat)
    requires Find(s, ParamToken) < 0
    ensures Numbered(s, k) == s && Placeholders(s) == 0
  {
  }

  lemma {:induction false} Associative(p: string, q: string, u: string, v: string)
    ensures p + q + u + v == p + (q + u + v)
  {
  }

  lemma {:induction false} NumberedUnfold(s: string, k: nat)
    requires Find(s, ParamToken) >= 0
    ensures Numbered(s, k) == s[..Find(s, ParamToken)] + ParamRef(k) + Numbered(s[Find(s, ParamToken) + |ParamToken|..], k + 1)
    ensures Placeholders(s) == 1 + Placeholders(s[Find(s, ParamToken) + |ParamToken|..])
  {
  }

  /** No placeholder is left. */
  lemma {:induction false} NumberedClean(s: string, k: nat)
    ensures Clean(Numbered(s, k))
    decreases |s|
  {
    var i := Find(s, ParamToken);
    if i >= 0 {
      var a := s[..i];
      var rest := Numbered(s[i + |ParamToken|..], k + 1);
      NumberedClean(s[i + |ParamToken|..], k + 1);
      PrefixClean(s);
      forall p: nat
        ensures !OccursAt(a + ParamRef(k) + rest, ParamToken, p)
      {
        ShiftedAt(a, k, rest, p);
      }
    }
  }

  /** The first placeholder after placeholder-free text becomes
      `{paramk}`, and those after it are numbered on from `k + 1`. */
  lemma {:induction false} NumberedAt(a: string, y: string, k: nat)
    requires Clean(a)
    ensures Numbered(a + ParamToken + y, k) == a + ParamRef(k) + Numbered(y, k + 1)
    ensures Placeholders(a + ParamToken + y) == 1 + Placeholders(y)
  {
    FindAtToken(a, y);
    var t := a + ParamToken + y;
    assert t[..|a|] == a;
    assert t[|a| + |ParamToken|..] == y;
  }

  lemma {:induction false} NoBraceClean(a: string)
    requires '{' !in a
    ensures Clean(a)
  {
    forall p: nat
      ensures !OccursAt(a, ParamToken, p)
    {
      if p + |ParamToken| <= |a| {
        assert a[p..p + |ParamToken|][0] == a[p];
      }
    }
  }

  /** `/api/users/{PARAM}/posts/{PARAM}` is published as
      `/api/users/{param1}/posts/{param2}`. */
  lemma {:induction false} NumberedExample()
    ensures var s := "/api/users/" + ParamToken + "/posts/" + ParamToken;
      Numbered(s, 1) == "/api/users/" + ParamRef(1) + "/posts/" + ParamRef(2) && Placeholders(s) == 2
  {
    NoBraceClean("/api/users/");
    NoBraceClean("/posts/");
    NumberedTwo("/api/users/", "/posts/");
  }

  /** Two placeholders, each after clean text, become `{param1}` and
      `{param2}`. */
  lemma {:induction false} NumberedTwo(u: string, p: string)
    requires Clean(u) && Clean(p)
    ensures Numbered(u + ParamToken + p + ParamToken, 1) == u + ParamRef(1) + p + ParamRef(2)
    ensures Placeholders(u + ParamToken + p + ParamToken) == 2
  {
    var q := p + ParamToken;
    assert Numbered(q, 2) == p + ParamRef(2) && Placeholders(q) == 1 by {
      assert q == p + ParamToken + "";
      NumberedAt(p, "", 2);
      NumberedNone("", 3);
      assert p + ParamRef(2) + "" == p + ParamRef(2);
    }
    assert Numbered(u + ParamToken + q, 1) == u + ParamRef(1) + Numbered(q, 2)
        && Placeholders(u + ParamToken + q) == 1 + Placeholders(q) by {
      NumberedAt(u, q, 1);
    }
    Assoc(u + ParamToken, p, ParamToken);
    Assoc(u + ParamRef(1), p, ParamRef(2));
  }

  lemma {:induction false} ParamRefExamples()
    ensures ParamRef(1) == "{param1}" && ParamRef(2) == "{param2}"
  {
    var one, two := NatToString(1), NatToString(2);
    assert one == "1" && two == "2";
    assert ParamRef(1) == "{param" + one + "}";
    assert ParamRef(2) == "{param" + two + "}";
  }

  // ---------------------------------------------------------------------
  // Properties of the parameter list.

  lemma {:induction false} AppendNewProps(init: seq<string>, xs: seq<string>)
    ensures |init| <= |AppendNew(init, xs)| && AppendNew(init, xs)[..|init|] == init
    ensures forall x :: x in xs ==> x in AppendNew(init, xs)
    ensures forall y :: y in AppendNew(init, xs) ==> y in init || y in xs
    ensures Distinct(init) ==> Distinct(AppendNew(init, xs))
    decreases |xs|
  {
    if xs != [] {
      var last := xs[|xs| - 1];
      var pre := xs[..|xs| - 1];
      AppendNewProps(init, pre);
      assert forall x :: x in xs ==> x in pre || x == last;
      assert forall x :: x in pre ==> x in xs;
      var r := AppendNew(init, pre);
      if last !in r {
        assert (r + [last])[..|init|] == r[..|init|];
      }
    }
  }

  lemma {:induction false} ParamNameInjective(x: nat, y: nat)
    ensures ParamName(x) == ParamName(y) ==> x == y
  {
    if ParamName(x) == ParamName(y) {
      assert NatToString(x) == ParamName(x)[5..];
      assert NatToString(y) == ParamName(y)[5..];
    }
  }

  lemma {:induction false} ParamNamesSnoc(from: nat, n: nat)
    ensures ParamNames(from, n + 1) == ParamNames(from, n) + [ParamName(from + n)]
  {
    assert ParamNames(from, n + 1)[..n] == ParamNames(from, n);
  }

  lemma {:induction false} ParamNamesDistinct(from: nat, n: nat)
    ensures Distinct(ParamNames(from, n))
  {
    forall i, j | 0 <= i < j < n
      ensures ParamNames(from, n)[i] != ParamNames(from, n)[j]
    {
      ParamNameInjective(from + i, from + j);
    }
  }

  /** The path parameters: `param1` ... `paramN` first, one per
      placeholder and in order; then every other name in the path; no name
      twice. */
  lemma {:induction false} PathParamsShape(endpoint: string)
    ensures var n := Placeholders(Rebraced(endpoint));
      && |PathParams(endpoint)| >= n
      && (forall j :: 0 <= j < n ==> PathParams(endpoint)[j] == ParamName(1 + j))
      && (forall x :: x in Exprs(Scan(NormalizedPath(endpoint), Brace)) ==> x in PathParams(endpoint))
      && (forall y :: y in PathParams(endpoint) ==>
            y in ParamNames(1, n) || y in Exprs(Scan(NormalizedPath(endpoint), Brace)))
      && Distinct(PathParams(endpoint))
  {
    var n := Placeholders(Rebraced(endpoint));
    var init := ParamNames(1, n);
    var names := Exprs(Scan(NormalizedPath(endpoint), Brace));
    AppendNewProps(init, names);
    ParamNamesDistinct(1, n);
    forall j | 0 <= j < n
      ensures PathParams(endpoint)[j] == ParamName(1 + j)
    {
      assert PathParams(endpoint)[..n][j] == init[j];
    }
  }

  /** `re.sub` turns `${e}` into `{e}` and keeps the text around it. */
  lemma {:induction false} RebracedInterpolation(t: string, e: string, r: string)
    requires WellFormedExpr(e) && NoOpenerIn(t, DollarBrace)
    ensures Rebraced(t + (DollarBrace + e + "}" + r)) == t + ("{" + e + "}" + Rebraced(r))
  {
    var x := DollarBrace + e + "}" + r;
    var q := [Interp(e)] + Scan(r, DollarBrace);
    assert Scan(t + x, DollarBrace) == Chrs(t) + q by {
      ScanInterpolation(t, DollarBrace, e, r);
    }
    assert Render(Chrs(t) + q, Brace) == t + Render(q, Brace) by {
      RenderChrs(t, q);
    }
    assert Render(q, Brace) == "{" + e + "}" + Rebraced(r) by {
      RenderCons(Interp(e), Scan(r, DollarBrace), Brace);
    }
  }

  lemma {:induction false} RenderChrs(t: string, ps: seq<Piece>)
    ensures Render(Chrs(t) + ps, Brace) == t + Render(ps, Brace)
    decreases |t|
  {
    if t == [] {
      assert Chrs(t) + ps == ps;
    } else {
      var rest := Chrs(t[1..]) + ps;
      assert Chrs(t) + ps == [Chr(t[0])] + rest by {
        ConsConcat(Chrs(t), ps);
      }
      RenderCons(Chr(t[0]), rest, Brace);
      RenderChrs(t[1..], ps);
      ConsConcat(t, Render(ps, Brace));
    }
  }
}
