/** The interpolation scanner behind the patterns `\${([^}]+)}` and
    `{([^}]+)}`: an opener, one or more characters other than `}`, then `}`.
    Scanning left to right, a match is taken wherever one starts and the scan
    resumes after its closing brace, as `re.finditer`, `re.findall` and
    `re.sub` do. */
module Templates {
  import opened Text

  /** A scanned text is a sequence of plain characters and interpolations. */
  datatype Piece = Chr(c: char) | Interp(expr: string)

  const DollarBrace: string := "${"
  const Brace: string := "{"

  predicate ValidOpener(o: string) {
    |o| > 0 && '}' !in o
  }

  /** The index of the first `}` in `s`, or `|s|` when there is none. */
  function CloseAt(s: string): (k: nat)
    ensures k <= |s|
  {
    if s == [] || s[0] == '}' then 0 else 1 + CloseAt(s[1..])
  }

  lemma {:induction false} CloseAtFirst(s: string)
    ensures forall i :: 0 <= i < CloseAt(s) ==> s[i] != '}'
    ensures CloseAt(s) < |s| ==> s[CloseAt(s)] == '}'
  {
    if s != [] && s[0] != '}' {
      CloseAtFirst(s[1..]);
    }
  }

  /** The pattern matches at the start of `s`: the opener, then at least one
      character before the first `}`, which exists. */
  predicate MatchesAt(s: string, o: string) {
    StartsWith(s, o) && 0 < CloseAt(s[|o|..]) < |s| - |o|
  }

  function RenderPiece(p: Piece, o: string): string {
    match p
    case Chr(c) => [c]
    case Interp(e) => o + e + "}"
  }

  /** Writes pieces back as text, each interpolation as `<o>expr}`. */
  function Render(ps: seq<Piece>, o: string): string {
    if ps == [] then [] else RenderPiece(ps[0], o) + Render(ps[1..], o)
  }

  predicate WellFormedExpr(e: string) {
    e != [] && '}' !in e
  }

  /** The left-to-right scan.  Every captured expression is non-empty and
      free of `}`, as `[^}]+` demands. */
  function Scan(s: string, o: string): (ps: seq<Piece>)
    requires ValidOpener(o)
    ensures forall k :: 0 <= k < |ps| && ps[k].Interp? ==> WellFormedExpr(ps[k].expr)
    decreases |s|
  {
    if |s| == 0 then []
    else if MatchesAt(s, o) then
      var j := |o| + CloseAt(s[|o|..]);
      MatchBounds(s, o, j);
      [Interp(s[|o|..j])] + Scan(s[j + 1..], o)
    else
      [Chr(s[0])] + Scan(s[1..], o)
  }

  /** The scan loses nothing: rendering the pieces gives the input back. */
  lemma {:induction false} ScanRender(s: string, o: string)
    requires ValidOpener(o)
    ensures Render(Scan(s, o), o) == s
    decreases |s|
  {
    if s == [] {
    } else if MatchesAt(s, o) {
      var j := |o| + CloseAt(s[|o|..]);
      var e := s[|o|..j];
      var rest := Scan(s[j + 1..], o);
      SplitAtMatch(s, o, j);
      assert Scan(s, o) == [Interp(e)] + rest;
      ScanRender(s[j + 1..], o);
      RenderCons(Interp(e), rest, o);
    } else {
      var rest := Scan(s[1..], o);
      assert Scan(s, o) == [Chr(s[0])] + rest;
      ScanRender(s[1..], o);
      RenderCons(Chr(s[0]), rest, o);
      assert [s[0]] + s[1..] == s;
    }
  }

  lemma {:induction false} MatchBounds(s: string, o: string, j: nat)
    requires ValidOpener(o) && MatchesAt(s, o) && j == |o| + CloseAt(s[|o|..])
    ensures |o| < j < |s| && WellFormedExpr(s[|o|..j])
  {
    CloseAtFirst(s[|o|..]);
    assert forall k :: 0 <= k < j - |o| ==> s[|o|..j][k] == s[|o|..][k];
  }

  lemma {:induction false} SplitAtMatch(s: string, o: string, j: nat)
    requires ValidOpener(o) && MatchesAt(s, o) && j == |o| + CloseAt(s[|o|..])
    ensures |o| < j < |s| && s == o + s[|o|..j] + "}" + s[j + 1..]
    ensures WellFormedExpr(s[|o|..j])
  {
    var i := CloseAt(s[|o|..]);
    CloseAtFirst(s[|o|..]);
    assert s[j] == s[|o|..][i];
    assert s[..|o|] == o;
    assert s == s[..|o|] + s[|o|..j] + [s[j]] + s[j + 1..];
    assert forall k :: 0 <= k < i ==> s[|o|..j][k] == s[|o|..][k];
  }

  lemma {:induction false} RenderCons(p: Piece, rest: seq<Piece>, o: string)
    ensures Render([p] + rest, o) == RenderPiece(p, o) + Render(rest, o)
  {
    assert ([p] + rest)[1..] == rest;
  }

  /** Replaces every interpolation by `repl` (`re.sub`). */
  function Substitute(ps: seq<Piece>, repl: string): string {
    if ps == [] then []
    else
      (match ps[0] case Chr(c) => [c] case Interp(_) => repl) + Substitute(ps[1..], repl)
  }

  /** The captured expressions, in order (`re.findall`). */
  function Exprs(ps: seq<Piece>): seq<string> {
    if ps == [] then []
    else (if ps[0].Interp? then [ps[0].expr] else []) + Exprs(ps[1..])
  }

  /** The pieces with every expression erased. */
  function Skeleton(ps: seq<Piece>): seq<Piece> {
    if ps == [] then []
    else [if ps[0].Interp? then Interp([]) else ps[0]] + Skeleton(ps[1..])
  }

  function Chrs(t: string): (ps: seq<Piece>)
    ensures |ps| == |t|
  {
    if t == [] then [] else [Chr(t[0])] + Chrs(t[1..])
  }

  /** Substitution depends on the skeleton alone: texts that differ only in
      their interpolated expressions become the same text. */
  lemma {:induction false} SubstituteIgnoresExprs(p1: seq<Piece>, p2: seq<Piece>, repl: string)
    requires Skeleton(p1) == Skeleton(p2)
    ensures Substitute(p1, repl) == Substitute(p2, repl)
  {
    if p1 != [] {
      assert p2 != [];
      assert Skeleton(p1)[0] == Skeleton(p2)[0];
      assert Skeleton(p1)[1..] == Skeleton(p1[1..]);
      assert Skeleton(p2)[1..] == Skeleton(p2[1..]);
      SubstituteIgnoresExprs(p1[1..], p2[1..], repl);
    } else {
      assert p2 == [];
    }
  }

  /** Where no match starts, the scan emits the first character. */
  lemma {:induction false} ScanChr(s: string, o: string)
    requires ValidOpener(o) && s != [] && !MatchesAt(s, o)
    ensures Scan(s, o) == [Chr(s[0])] + Scan(s[1..], o)
  {
  }

  /** A match of `<o>e}` becomes one interpolation. */
  lemma {:induction false} ScanMatch(o: string, e: string, r: string)
    requires ValidOpener(o) && WellFormedExpr(e)
    ensures Scan(o + e + "}" + r, o) == [Interp(e)] + Scan(r, o)
  {
    MatchFacts(o, e, r);
    ScanAtExpr(o + e + "}" + r, o, e, r);
  }

  lemma {:induction false} ScanAtExpr(s: string, o: string, e: string, r: string)
    requires ValidOpener(o) && MatchesAt(s, o) && CloseAt(s[|o|..]) == |e|
    requires s[|o|..|o| + |e|] == e && s[|o| + |e| + 1..] == r
    ensures Scan(s, o) == [Interp(e)] + Scan(r, o)
  {
    ScanAt(s, o);
  }

  /** `<o>e}` followed by anything matches, and the match ends at the
      brace after `e`. */
  lemma {:induction false} MatchFacts(o: string, e: string, r: string)
    requires ValidOpener(o) && WellFormedExpr(e)
    ensures var s := o + e + "}" + r;
      && MatchesAt(s, o) && CloseAt(s[|o|..]) == |e|
      && s[|o|..|o| + |e|] == e && s[|o| + |e| + 1..] == r
  {
    var s := o + e + "}" + r;
    assert s[..|o|] == o;
    assert s[|o|..] == e + "}" + r;
    CloseAtExpr(e, r);
  }

  /** Where a match starts, the scan emits one interpolation. */
  lemma {:induction false} ScanAt(s: string, o: string)
    requires ValidOpener(o) && MatchesAt(s, o)
    ensures var j := |o| + CloseAt(s[|o|..]);
      j < |s| && Scan(s, o) == [Interp(s[|o|..j])] + Scan(s[j + 1..], o)
  {
    var j := |o| + CloseAt(s[|o|..]);
    MatchBounds(s, o, j);
  }

  /** Scanning `t + <o>e} + r`, where no match can start inside `t`, yields the
      characters of `t`, the interpolation `e`, and then the scan of `r`. */
  lemma {:induction false} ScanInterpolation(t: string, o: string, e: string, r: string)
    requires ValidOpener(o) && WellFormedExpr(e)
    requires NoOpenerIn(t, o)
    ensures Scan(t + (o + e + "}" + r), o) == Chrs(t) + ([Interp(e)] + Scan(r, o))
  {
    var x := o + e + "}" + r;
    assert StartsWith(x, o) by {
      assert x[..|o|] == o;
    }
    ScanBefore(t, x, o);
    ScanMatch(o, e, r);
  }

  /** Characters before an opener, where no match can start, are scanned
      one by one. */
  lemma {:induction false} ScanBefore(t: string, x: string, o: string)
    requires ValidOpener(o) && NoOpenerIn(t, o) && StartsWith(x, o)
    ensures Scan(t + x, o) == Chrs(t) + Scan(x, o)
    decreases |t|
  {
    if t == [] {
      assert t + x == x;
    } else {
      NoMatchBeforeOpener(t, o, x);
      ScanChrStep(t, x, o);
      ScanBefore(t[1..], x, o);
      ChrsAssoc(t, Scan(x, o));
    }
  }

  lemma {:induction false} ScanChrStep(t: string, x: string, o: string)
    requires ValidOpener(o) && t != [] && !MatchesAt(t + x, o)
    ensures Scan(t + x, o) == [Chr(t[0])] + Scan(t[1..] + x, o)
  {
    ScanChr(t + x, o);
    TailOfConcat(t, x);
  }

  lemma {:induction false} ChrsAssoc(t: string, a: seq<Piece>)
    requires t != []
    ensures [Chr(t[0])] + (Chrs(t[1..]) + a) == Chrs(t) + a
  {
  }

  /** No occurrence of the opener starts inside `t`, even one running on
      into a following opener. */
  predicate NoOpenerIn(t: string, o: string) {
    forall i: nat :: i < |t| ==> !OccursAt(t + o, o, i)
  }

  lemma {:induction false} NoMatchBeforeOpener(t: string, o: string, x: string)
    requires ValidOpener(o) && t != [] && NoOpenerIn(t, o) && StartsWith(x, o)
    ensures !MatchesAt(t + x, o)
    ensures NoOpenerIn(t[1..], o)
  {
    assert !OccursAt(t + o, o, 0);
    assert forall k :: 0 <= k < |o| ==> (t + x)[k] == (t + o)[k];
    assert (t + x)[..|o|] == (t + o)[..|o|];
    var u := t[1..] + o;
    assert t + o == [t[0]] + u;
    forall i: nat | i < |t[1..]| ensures !OccursAt(u, o, i) {
      assert !OccursAt([t[0]] + u, o, i + 1);
      assert ([t[0]] + u)[i + 1..i + 1 + |o|] == u[i..i + |o|];
    }
  }

  lemma {:induction false} CloseAtExpr(e: string, r: string)
    requires '}' !in e
    ensures CloseAt(e + "}" + r) == |e|
    decreases |e|
  {
    var s := e + "}" + r;
    if e == [] {
      assert s[0] == '}';
    } else {
      assert s[0] == e[0];
      assert s[1..] == e[1..] + "}" + r;
      CloseAtExpr(e[1..], r);
    }
  }

  lemma {:induction false} SubstituteChrs(t: string, ps: seq<Piece>, repl: string)
    ensures Substitute(Chrs(t) + ps, repl) == t + Substitute(ps, repl)
    ensures Exprs(Chrs(t) + ps) == Exprs(ps)
  {
    if t != [] {
      var qs := Chrs(t) + ps;
      assert Chrs(t) == [Chr(t[0])] + Chrs(t[1..]);
      assert qs[0] == Chr(t[0]);
      assert qs[1..] == Chrs(t[1..]) + ps;
      SubstituteChrs(t[1..], ps, repl);
      calc {
        Substitute(qs, repl);
        [t[0]] + Substitute(qs[1..], repl);
        [t[0]] + (t[1..] + Substitute(ps, repl));
        { assert [t[0]] + t[1..] == t; }
        t + Substitute(ps, repl);
      }
    } else {
      assert Chrs(t) + ps == ps;
    }
  }

  /** The aggregation key of an endpoint path: every `${expr}` becomes the
      one shared placeholder `{PARAM}`. */
  function NormalizeEndpoint(s: string): string {
    Substitute(Scan(s, DollarBrace), "{PARAM}")
  }

  /** The expressions inside the `${...}` of a path, in order. */
  function TemplateVars(s: string): seq<string> {
    Exprs(Scan(s, DollarBrace))
  }

  /** One interpolation after plain text: it becomes `{PARAM}` and its
      expression is the next template variable. */
  lemma {:induction false} NormalizeInterpolation(t: string, e: string, r: string)
    requires WellFormedExpr(e) && '$' !in t
    ensures NormalizeEndpoint(t + ("${" + e + "}" + r)) == t + ("{PARAM}" + NormalizeEndpoint(r))
    ensures TemplateVars(t + ("${" + e + "}" + r)) == [e] + TemplateVars(r)
  {
    assert NoOpenerIn(t, DollarBrace) by {
      forall i: nat | i < |t| ensures !OccursAt(t + DollarBrace, DollarBrace, i) {
        assert t[i] != '$';
        assert (t + DollarBrace)[i] == t[i];
      }
    }
    ScanInterpolation(t, DollarBrace, e, r);
    var rest := Scan(r, DollarBrace);
    SubstituteChrs(t, [Interp(e)] + rest, "{PARAM}");
    assert ([Interp(e)] + rest)[1..] == rest;
  }

  /** `/api/users/${e}` normalises to `/api/users/{PARAM}` whatever `e` is. */
  lemma {:induction false} UsersPath(e: string)
    requires WellFormedExpr(e)
    ensures NormalizeEndpoint("/api/users/" + ("${" + e + "}" + "")) == "/api/users/{PARAM}"
    ensures TemplateVars("/api/users/" + ("${" + e + "}" + "")) == [e]
  {
    assert Scan([], DollarBrace) == [];
    NormalizeInterpolation("/api/users/", e, "");
  }

  lemma {:induction false} UserIdPath()
    ensures NormalizeEndpoint("/api/users/${userId}") == "/api/users/{PARAM}"
    ensures TemplateVars("/api/users/${userId}") == ["userId"]
  {
    UsersPath("userId");
    assert "/api/users/" + ("${" + "userId" + "}" + "") == "/api/users/${userId}";
  }

  lemma {:induction false} IdPath()
    ensures NormalizeEndpoint("/api/users/${id}") == "/api/users/{PARAM}"
    ensures TemplateVars("/api/users/${id}") == ["id"]
  {
    UsersPath("id");
    assert "/api/users/" + ("${" + "id" + "}" + "") == "/api/users/${id}";
  }

  /** Two call sites interpolating different expressions at the same place
      share one aggregation key, and each contributes its own expression. */
  lemma {:induction false} SharedKeyExample()
    ensures NormalizeEndpoint("/api/users/${userId}") == NormalizeEndpoint("/api/users/${id}") == "/api/users/{PARAM}"
    ensures TemplateVars("/api/users/${userId}") == ["userId"]
    ensures TemplateVars("/api/users/${id}") == ["id"]
  {
    UserIdPath();
    IdPath();
  }
}
