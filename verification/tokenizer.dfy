/** The depth-aware comma tokenizer that splits the inside of an object or
    array literal into its top-level entries.  The analyzer carries three
    copies of this loop (in `_extract_body_structure`, `_parse_array_items`
    and `_extract_nested_object_properties`); they differ only in variable
    names and are all modelled by `Tokenize`. */
module Tokenizer {
  import opened Text

  /** What the scanner remembers between characters: the delimiter of the
      string literal being read (`None` outside a string), and the brace and
      bracket depths, which move on every `{}[]` even inside a string. */
  datatype ScanState = ScanState(quote: Option<char>, brace: int, bracket: int)

  const Start := ScanState(None, 0, 0)

  /** The state after reading one character. */
  function Step(st: ScanState, c: char): ScanState {
    if c in Quotes && (st.quote.None? || st.quote == Some(c)) then
      st.(quote := if st.quote.Some? then None else Some(c))
    else if c == '{' then st.(brace := st.brace + 1)
    else if c == '}' then st.(brace := st.brace - 1)
    else if c == '[' then st.(bracket := st.bracket + 1)
    else if c == ']' then st.(bracket := st.bracket - 1)
    else st
  }

  /** A comma ends the current token only outside strings at depth zero. */
  predicate Splits(st: ScanState, c: char) {
    c == ',' && st.quote.None? && st.brace == 0 && st.bracket == 0
  }

  /** The state after reading all of `s` from `st`. */
  function After(s: string, st: ScanState): ScanState
    decreases |s|
  {
    if s == [] then st else After(s[1..], Step(st, s[0]))
  }

  /** The raw text between splitting commas, read from state `st`; the last
      piece is what is left in the buffer at the end of the input. */
  function Pieces(s: string, st: ScanState): (r: seq<string>)
    ensures |r| >= 1
    decreases |s|
  {
    if s == [] then [[]]
    else
      var rest := Pieces(s[1..], Step(st, s[0]));
      if Splits(st, s[0]) then [[]] + rest
      else [[s[0]] + rest[0]] + rest[1..]
  }

  function StripAll(ps: seq<string>): (r: seq<string>)
    ensures |r| == |ps|
    ensures forall k :: 0 <= k < |ps| ==> r[k] == Strip(ps[k])
  {
    if ps == [] then [] else [Strip(ps[0])] + StripAll(ps[1..])
  }

  /** The tokens: every piece closed by a comma, trimmed (even when that
      leaves it empty), then the trimmed remainder when it is not blank. */
  function Tokens(s: string): seq<string> {
    TokensOf(Pieces(s, Start))
  }

  /** The tokens the pieces `p` give. */
  function TokensOf(p: seq<string>): seq<string>
    requires |p| >= 1
  {
    var last := Strip(p[|p| - 1]);
    StripAll(p[..|p| - 1]) + (if last != [] then [last] else [])
  }

  /** `tokens` and `current` are what the loop holds after reading `s[..i]`:
      the trimmed closed pieces and the open one. */
  ghost predicate Scanned(s: string, i: nat, tokens: seq<string>, current: string)
    requires i <= |s|
  {
    var p := Pieces(s[..i], Start);
    tokens == StripAll(p[..|p| - 1]) && current == p[|p| - 1]
  }

  /** The character loop of the analyzer, with its `in_string` flag and
      `string_delimiter` kept side by side. */
  method Tokenize(s: string) returns (tokens: seq<string>)
    ensures tokens == Tokens(s)
  {
    tokens := [];
    var current: string := [];
    var inString := false;
    var delimiter: Option<char> := None;
    var braceDepth := 0;
    var bracketDepth := 0;
    for i := 0 to |s|
      invariant inString <==> delimiter.Some?
      invariant ScanState(delimiter, braceDepth, bracketDepth) == After(s[..i], Start)
      invariant Scanned(s, i, tokens, current)
    {
      ScannedStep(s, i, tokens, current);
      inString, delimiter, braceDepth, bracketDepth, tokens, current :=
        ReadChar(s[i], inString, delimiter, braceDepth, bracketDepth, tokens, current);
    }
    assert s[..|s|] == s;
    if Strip(current) != [] {
      tokens := tokens + [Strip(current)];
    }
  }

  /** The body of the character loop: the flags and depths move as `Step`
      says, and a splitting comma closes the current token. */
  method ReadChar(c: char, inString: bool, delimiter: Option<char>, braceDepth: int, bracketDepth: int,
                  tokens: seq<string>, current: string)
    returns (inString': bool, delimiter': Option<char>, braceDepth': int, bracketDepth': int,
             tokens': seq<string>, current': string)
    requires inString <==> delimiter.Some?
    ensures inString' <==> delimiter'.Some?
    ensures ScanState(delimiter', braceDepth', bracketDepth') == Step(ScanState(delimiter, braceDepth, bracketDepth), c)
    ensures Splits(ScanState(delimiter, braceDepth, bracketDepth), c) ==> tokens' == tokens + [Strip(current)] && current' == []
    ensures !Splits(ScanState(delimiter, braceDepth, bracketDepth), c) ==> tokens' == tokens && current' == current + [c]
  {
    inString', delimiter', braceDepth', bracketDepth', tokens', current' :=
      inString, delimiter, braceDepth, bracketDepth, tokens, current;
    if (c == '"' || c == '\'') && (!inString || Some(c) == delimiter) {
      if inString {
        if Some(c) == delimiter {
          inString' := false;
          delimiter' := None;
        }
      } else {
        inString' := true;
        delimiter' := Some(c);
      }
      current' := current + [c];
    } else if c == '{' {
      braceDepth' := braceDepth + 1;
      current' := current + [c];
    } else if c == '}' {
      braceDepth' := braceDepth - 1;
      current' := current + [c];
    } else if c == '[' {
      bracketDepth' := bracketDepth + 1;
      current' := current + [c];
    } else if c == ']' {
      bracketDepth' := bracketDepth - 1;
      current' := current + [c];
    } else if c == ',' && !inString && braceDepth == 0 && bracketDepth == 0 {
      tokens' := tokens + [Strip(current)];
      current' := [];
    } else {
      current' := current + [c];
    }
  }

  /** One character of the loop: a splitting comma closes the open piece,
      any other character extends it. */
  lemma {:induction false} ScannedStep(s: string, i: nat, tokens: seq<string>, current: string)
    requires i < |s| && Scanned(s, i, tokens, current)
    ensures After(s[..i + 1], Start) == Step(After(s[..i], Start), s[i])
    ensures var cut := Splits(After(s[..i], Start), s[i]);
      cut ==> Scanned(s, i + 1, tokens + [Strip(current)], [])
    ensures var cut := Splits(After(s[..i], Start), s[i]);
      !cut ==> Scanned(s, i + 1, tokens, current + [s[i]])
  {
    var pre, c := s[..i], s[i];
    assert s[..i + 1] == pre + [c];
    AfterSnoc(pre, c, Start);
    PiecesSnoc(pre, c, Start);
    var p := Pieces(pre, Start);
    if Splits(After(pre, Start), c) {
      ClosedPiece(p);
    } else {
      GrownPiece(p, c);
    }
  }

  /** A cut closes the open piece: it joins the trimmed tokens and a new
      empty piece is open. */
  lemma {:induction false} ClosedPiece(p: seq<string>)
    requires |p| >= 1
    ensures var q := Extended(p, true, ',');
      StripAll(p[..|p| - 1]) + [Strip(p[|p| - 1])] == StripAll(q[..|q| - 1]) && q[|q| - 1] == []
  {
    var n := |p|;
    var q := Extended(p, true, ',');
    assert q == p + [[]];
    assert q[..|q| - 1] == p;
    assert StripAll(p) == StripAll(p[..n - 1]) + [Strip(p[n - 1])] by {
      assert p == p[..n - 1] + [p[n - 1]];
      StripAllAppend(p[..n - 1], [p[n - 1]]);
    }
  }

  /** Any other character grows the open piece and leaves the tokens. */
  lemma {:induction false} GrownPiece(p: seq<string>, c: char)
    requires |p| >= 1
    ensures var q := Extended(p, false, c);
      q[..|q| - 1] == p[..|p| - 1] && q[|q| - 1] == p[|p| - 1] + [c]
  {
  }

  lemma {:induction false} StripAllAppend(a: seq<string>, b: seq<string>)
    ensures StripAll(a + b) == StripAll(a) + StripAll(b)
    decreases |a|
  {
    if a == [] {
      assert a + b == b;
    } else {
      assert (a + b)[1..] == a[1..] + b;
      StripAllAppend(a[1..], b);
    }
  }

  lemma {:induction false} AfterSnoc(s: string, c: char, st: ScanState)
    ensures After(s + [c], st) == Step(After(s, st), c)
    decreases |s|
  {
    if s != [] {
      assert (s + [c])[1..] == s[1..] + [c];
      AfterSnoc(s[1..], c, Step(st, s[0]));
    }
  }

  /** The pieces after one more character: a new empty piece when it cuts,
      otherwise the last piece grows by it. */
  function Extended(p: seq<string>, cut: bool, c: char): (r: seq<string>)
    requires |p| >= 1
    ensures |r| >= 1
  {
    if cut then p + [[]] else p[..|p| - 1] + [p[|p| - 1] + [c]]
  }

  /** Reading one more character either closes the last piece (a splitting
      comma) or extends it. */
  lemma {:induction false} PiecesSnoc(s: string, c: char, st: ScanState)
    ensures Pieces(s + [c], st) == Extended(Pieces(s, st), Splits(After(s, st), c), c)
    decreases |s|
  {
    if s != [] {
      var a, t := s[0], Step(st, s[0]);
      assert (s + [c])[0] == a;
      assert (s + [c])[1..] == s[1..] + [c];
      PiecesSnoc(s[1..], c, t);
      var q := Pieces(s[1..], t);
      var cut := Splits(After(s[1..], t), c);
      assert After(s, st) == After(s[1..], t);
      if Splits(st, a) {
        ExtendedAfterCut(q, cut, c);
      } else {
        ExtendedGrown(q, a, cut, c);
      }
    } else {
      assert s + [c] == [c];
      PiecesOne(c, st);
    }
  }

  lemma {:induction false} PiecesOne(c: char, st: ScanState)
    ensures Pieces([c], st) == Extended([[]], Splits(st, c), c)
  {
    var rest := Pieces([], Step(st, c));
    assert [c][1..] == [] && [c][0] == c;
    assert rest == [[]];
    if Splits(st, c) {
      var e: seq<string> := [[]];
      assert Pieces([c], st) == e + rest == e + e;
    } else {
      var e: seq<string> := [[]];
      assert rest[1..] == [] && rest[0] == [];
      assert [c] + rest[0] == [c];
      assert Pieces([c], st) == [[c] + rest[0]] + rest[1..];
      assert e[..0] == [] && e[0] + [c] == [c];
      assert Extended(e, false, c) == [[c]];
    }
  }

  /** Growing the pieces after a cut grows the part after it. */
  lemma {:induction false} ExtendedAfterCut(q: seq<string>, cut: bool, c: char)
    requires |q| >= 1
    ensures Extended([[]] + q, cut, c) == [[]] + Extended(q, cut, c)
  {
    var p := [[]] + q;
    if !cut {
      assert p[..|p| - 1] == [[]] + q[..|q| - 1];
    }
  }

  /** Growing the pieces when the first one has a character in front. */
  lemma {:induction false} ExtendedGrown(q: seq<string>, a: char, cut: bool, c: char)
    requires |q| >= 1
    ensures var r := Extended(q, cut, c);
      Extended([[a] + q[0]] + q[1..], cut, c) == [[a] + r[0]] + r[1..]
  {
    var p := [[a] + q[0]] + q[1..];
    var r := Extended(q, cut, c);
    var n := |q|;
    if cut {
      assert r[1..] == q[1..] + [[]];
    } else if n == 1 {
      assert r == [q[0] + [c]];
      assert p == [[a] + q[0]];
      assert [a] + r[0] == ([a] + q[0]) + [c];
    } else {
      assert r[0] == q[0];
      assert r[1..] == q[1..n - 1] + [q[n - 1] + [c]];
      assert p[..|p| - 1] == [[a] + q[0]] + q[1..n - 1];
    }
  }

  /** Joining the pieces with commas gives the input back: nothing is lost
      and only commas are removed. */
  lemma {:induction false} PiecesJoin(s: string, st: ScanState)
    ensures Join(Pieces(s, st), ',') == s
    decreases |s|
  {
    if s != [] {
      var rest := Pieces(s[1..], Step(st, s[0]));
      PiecesJoin(s[1..], Step(st, s[0]));
      if Splits(st, s[0]) {
        assert Pieces(s, st) == [[]] + rest;
        assert ([[]] + rest)[1..] == rest;
      } else {
        var p := Pieces(s, st);
        assert p == [[s[0]] + rest[0]] + rest[1..];
        if |rest| > 1 {
          assert p[1..] == rest[1..];
        }
      }
    }
  }

  /** A comma read where `Splits` fails never separates tokens: when no
      character of `s` splits, the whole of `s` is one piece. */
  lemma {:induction false} PiecesNoCut(s: string, st: ScanState)
    requires forall j :: 0 <= j < |s| ==> !Splits(After(s[..j], st), s[j])
    ensures Pieces(s, st) == [s]
    decreases |s|
  {
    if s != [] {
      assert After(s[..0], st) == st;
      forall j | 0 <= j < |s[1..]|
        ensures !Splits(After(s[1..][..j], Step(st, s[0])), s[1..][j])
      {
        AfterCons(s, j + 1, st);
      }
      PiecesNoCut(s[1..], Step(st, s[0]));
      assert !Splits(st, s[0]);
      assert [s[0]] + s[1..] == s;
    }
  }

  /** The first splitting comma ends the first piece, and the rest is split
      from the state reached just after it. */
  lemma {:induction false} PiecesFirstCut(s: string, st: ScanState, i: nat)
    requires i < |s| && Splits(After(s[..i], st), s[i])
    requires forall j :: 0 <= j < i ==> !Splits(After(s[..j], st), s[j])
    ensures Pieces(s, st) == [s[..i]] + Pieces(s[i + 1..], After(s[..i + 1], st))
    decreases i
  {
    assert After(s[..0], st) == st;
    if i > 0 {
      var t := Step(st, s[0]);
      forall j | 0 <= j <= i
        ensures After(s[1..][..j], t) == After(s[..j + 1], st)
      {
        AfterCons(s, j + 1, st);
      }
      PiecesFirstCut(s[1..], t, i - 1);
      assert s[1..][i..] == s[i + 1..];
      assert s[1..][..i - 1] == s[1..i];
      assert [s[0]] + s[1..i] == s[..i];
    } else {
      assert s[..1] == [s[0]];
      assert After([s[0]], st) == Step(st, s[0]);
    }
  }

  /** Reading a prefix of `s` is reading its first character and then the
      rest of the prefix. */
  lemma {:induction false} AfterCons(s: string, j: nat, st: ScanState)
    requires 1 <= j <= |s|
    ensures After(s[..j], st) == After(s[1..][..j - 1], Step(st, s[0]))
  {
    assert s[..j][1..] == s[1..][..j - 1];
  }

  /** Inside a string literal whose delimiter does not occur again, nothing
      splits, whatever commas and brackets follow. */
  lemma {:induction false} UnterminatedString(s: string, st: ScanState)
    requires st.quote.Some? && st.quote.value !in s
    ensures Pieces(s, st) == [s]
    decreases |s|
  {
    if s != [] {
      assert Step(st, s[0]).quote == st.quote;
      UnterminatedString(s[1..], Step(st, s[0]));
      assert !Splits(st, s[0]);
      assert [s[0]] + s[1..] == s;
    }
  }

  /** Once more `}` than `{` have been read, commas stop splitting for as
      long as no `{` follows: unbalanced input is one token, not an error. */
  lemma {:induction false} NegativeDepth(s: string, st: ScanState)
    requires st.brace < 0 && '{' !in s
    ensures Pieces(s, st) == [s]
    decreases |s|
  {
    if s != [] {
      assert Step(st, s[0]).brace <= st.brace;
      NegativeDepth(s[1..], Step(st, s[0]));
      assert !Splits(st, s[0]);
      assert [s[0]] + s[1..] == s;
    }
  }

  /** Text without a comma is a single piece. */
  lemma {:induction false} NoComma(s: string, st: ScanState)
    requires ',' !in s
    ensures Pieces(s, st) == [s]
    decreases |s|
  {
    if s != [] {
      assert s[1..] == s[1..] && forall k :: 0 <= k < |s[1..]| ==> s[1..][k] == s[k + 1];
      NoComma(s[1..], Step(st, s[0]));
      assert !Splits(st, s[0]);
      assert [s[0]] + s[1..] == s;
    }
  }

  /** Every token is trimmed, and the tokens are exactly the trimmed pieces
      except that a blank final piece is dropped. */
  lemma {:induction false} TokensTrimmed(s: string)
    ensures var ts := Tokens(s);
      forall k :: 0 <= k < |ts| ==> Strip(ts[k]) == ts[k]
    ensures var p, ts := Pieces(s, Start), Tokens(s);
      |ts| == |p| - 1 || |ts| == |p|
    ensures var p, ts := Pieces(s, Start), Tokens(s);
      |ts| == |p| <==> Strip(p[|p| - 1]) != []
    ensures var p, ts := Pieces(s, Start), Tokens(s);
      forall k :: 0 <= k < |p| - 1 ==> ts[k] == Strip(p[k])
    ensures var p, ts := Pieces(s, Start), Tokens(s);
      |ts| == |p| ==> ts[|p| - 1] == Strip(p[|p| - 1])
  {
    TokensOfPieces(Pieces(s, Start));
    TokensOfTrimmed(Pieces(s, Start));
  }

  /** The tokens of pieces `p` are the trimmed pieces, the last one only
      when it is not blank. */
  lemma {:induction false} TokensOfPieces(p: seq<string>)
    requires |p| >= 1
    ensures var ts := TokensOf(p);
      |ts| == |p| - 1 || |ts| == |p|
    ensures var ts := TokensOf(p);
      |ts| == |p| <==> Strip(p[|p| - 1]) != []
    ensures var ts := TokensOf(p);
      forall k :: 0 <= k < |p| - 1 ==> ts[k] == Strip(p[k])
    ensures var ts := TokensOf(p);
      |ts| == |p| ==> ts[|p| - 1] == Strip(p[|p| - 1])
  {
    var last := Strip(p[|p| - 1]);
    var closed := StripAll(p[..|p| - 1]);
    if last != [] {
      assert TokensOf(p) == closed + [last];
    } else {
      assert TokensOf(p) == closed;
    }
  }

  lemma {:induction false} TokensOfTrimmed(p: seq<string>)
    requires |p| >= 1
    ensures var ts := TokensOf(p);
      forall k :: 0 <= k < |ts| ==> Strip(ts[k]) == ts[k]
  {
    var ts := TokensOf(p);
    TokensOfPieces(p);
    forall k | 0 <= k < |ts|
      ensures Strip(ts[k]) == ts[k]
    {
      assert ts[k] == Strip(p[k]);
      StripIdempotent(p[k], Whitespace);
    }
  }
}
