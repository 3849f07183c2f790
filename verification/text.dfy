/** Python string operations the analyzers rely on, written out over
    `seq<char>`.  Case mapping and digit tests are restricted to ASCII. */
module Text {

  datatype Option<+T> = None | Some(value: T)

  /** The characters Python's `str.strip()` removes (`str.isspace`). */
  const Whitespace: set<char> := {
    '\U{0009}', '\U{000A}', '\U{000B}', '\U{000C}', '\U{000D}', '\U{001C}', '\U{001D}', '\U{001E}',
    '\U{001F}', '\U{0020}', '\U{0085}', '\U{00A0}', '\U{1680}', '\U{2000}', '\U{2001}', '\U{2002}',
    '\U{2003}', '\U{2004}', '\U{2005}', '\U{2006}', '\U{2007}', '\U{2008}', '\U{2009}', '\U{200A}',
    '\U{2028}', '\U{2029}', '\U{202F}', '\U{205F}', '\U{3000}'
  }

  const Quotes: set<char> := {'\'', '"'}

  predicate StartsWith(s: string, p: string) {
    |p| <= |s| && s[..|p|] == p
  }

  predicate EndsWith(s: string, p: string) {
    |p| <= |s| && s[|s| - |p|..] == p
  }

  predicate OccursAt(s: string, sub: string, i: nat) {
    i + |sub| <= |s| && s[i..i + |sub|] == sub
  }

  /** Python `s.find(sub)`: the first index where `sub` occurs, or -1. */
  function Find(s: string, sub: string): (r: int)
    ensures -1 <= r <= |s|
    ensures r == -1 <==> forall i: nat :: !OccursAt(s, sub, i)
    ensures r >= 0 ==> OccursAt(s, sub, r) && forall i: nat :: i < r ==> !OccursAt(s, sub, i)
    decreases |s|
  {
    if |s| < |sub| then
      assert forall i: nat :: !OccursAt(s, sub, i);
      -1
    else if s[..|sub|] == sub then
      assert OccursAt(s, sub, 0);
      0
    else
      var k := Find(s[1..], sub);
      OccursShift(s, sub);
      assert !OccursAt(s, sub, 0);
      if k == -1 then -1 else assert OccursAt(s, sub, k + 1); k + 1
  }

  /** An occurrence after the first character is one in the tail. */
  lemma {:induction false} OccursShift(s: string, sub: string)
    requires s != []
    ensures forall i: nat :: 1 <= i ==> (OccursAt(s, sub, i) <==> OccursAt(s[1..], sub, i - 1))
  {
    forall i: nat | 1 <= i
      ensures OccursAt(s, sub, i) <==> OccursAt(s[1..], sub, i - 1)
    {
      if i + |sub| <= |s| {
        SliceOfTail(s, i, |sub|);
      }
    }
  }

  lemma {:induction false} SliceOfTail(s: string, i: nat, n: nat)
    requires 1 <= i && i + n <= |s|
    ensures s[1..][i - 1..i - 1 + n] == s[i..i + n]
  {
    var a, b := s[1..][i - 1..i - 1 + n], s[i..i + n];
    assert forall j :: 0 <= j < n ==> a[j] == b[j];
  }

  /** Python `sub in s`. */
  predicate Contains(s: string, sub: string) {
    Find(s, sub) >= 0
  }

  /** Python `s.index(c)` for one character. */
  function IndexOf(s: string, c: char): (i: nat)
    requires c in s
    ensures i < |s| && s[i] == c
    ensures forall k :: 0 <= k < i ==> s[k] != c
  {
    if s[0] == c then 0 else IndexOf(s[1..], c) + 1
  }

  /** Python `s.split(c, 1)` when `c` occurs in `s`. */
  function SplitFirst(s: string, c: char): (parts: (string, string))
    requires c in s
    ensures parts.0 + [c] + parts.1 == s
    ensures c !in parts.0
  {
    var i := IndexOf(s, c);
    assert s[..i] + [c] + s[i + 1..] == s;
    assert forall k :: 0 <= k < i ==> s[..i][k] != c;
    (s[..i], s[i + 1..])
  }

  /** Splitting at the first `c` of `a + [c] + b` gives back `a` and `b`
      when `a` has no `c`. */
  lemma {:induction false} SplitFirstOf(a: string, c: char, b: string)
    requires c !in a
    ensures SplitFirst(a + [c] + b, c) == (a, b)
  {
    var s := a + [c] + b;
    var i := IndexOf(s, c);
    assert s[|a|] == c;
    assert forall j :: 0 <= j < |a| ==> s[j] == a[j];
    assert s[..|a|] == a;
    assert s[|a| + 1..] == b;
  }

  /** Python `sep.join(parts)` for a one-character separator. */
  function Join(parts: seq<string>, sep: char): string {
    if |parts| == 0 then []
    else if |parts| == 1 then parts[0]
    else parts[0] + [sep] + Join(parts[1..], sep)
  }

  /** Python `s.split(c)`: never empty, and no piece holds `c`. */
  function Split(s: string, c: char): (parts: seq<string>)
    ensures |parts| >= 1
    ensures forall k :: 0 <= k < |parts| ==> c !in parts[k]
    ensures |parts| == 1 <==> c !in s
    decreases |s|
  {
    if c !in s then [s]
    else
      var (a, b) := SplitFirst(s, c);
      [a] + Split(b, c)
  }

  /** Joining the pieces gives `s` back. */
  lemma {:induction false} SplitJoin(s: string, c: char)
    ensures Join(Split(s, c), c) == s
    decreases |s|
  {
    if c in s {
      var (a, b) := SplitFirst(s, c);
      var rest := Split(b, c);
      SplitJoin(b, c);
      assert Split(s, c) == [a] + rest;
      assert ([a] + rest)[1..] == rest;
    }
  }

  /** The number of leading characters of `s` that lie in `cs`. */
  function LeadingCount(s: string, cs: set<char>): (n: nat)
    ensures n <= |s|
    ensures forall k :: 0 <= k < n ==> s[k] in cs
    ensures n < |s| ==> s[n] !in cs
  {
    if |s| > 0 && s[0] in cs then 1 + LeadingCount(s[1..], cs) else 0
  }

  /** The number of trailing characters of `s` that lie in `cs`. */
  function TrailingCount(s: string, cs: set<char>): (n: nat)
    ensures n <= |s|
    ensures forall k :: |s| - n <= k < |s| ==> s[k] in cs
    ensures n < |s| ==> s[|s| - 1 - n] !in cs
  {
    if |s| > 0 && s[|s| - 1] in cs then 1 + TrailingCount(s[..|s| - 1], cs) else 0
  }

  /** Python `s.strip(chars)`: removes every leading and trailing character
      found in `cs`; what remains is a contiguous slice of `s`. */
  function StripChars(s: string, cs: set<char>): (r: string)
    ensures LeadingCount(s, cs) + |r| <= |s|
    ensures r == s[LeadingCount(s, cs)..LeadingCount(s, cs) + |r|]
    ensures r != [] ==> r[0] !in cs && r[|r| - 1] !in cs
    ensures r == [] <==> forall k :: 0 <= k < |s| ==> s[k] in cs
  {
    var l := LeadingCount(s, cs);
    var t := TrailingCount(s[l..], cs);
    assert l < |s| ==> t < |s| - l;
    s[l..|s| - t]
  }

  /** Python `s.strip()`. */
  function Strip(s: string): string {
    StripChars(s, Whitespace)
  }

  /** Stripping a string that is already stripped changes nothing. */
  lemma {:induction false} StripStable(s: string, cs: set<char>)
    requires s == [] || (s[0] !in cs && s[|s| - 1] !in cs)
    ensures StripChars(s, cs) == s
  {
    var l := LeadingCount(s, cs);
    assert l == 0;
    var t := TrailingCount(s[l..], cs);
    assert s[l..] == s;
    assert t == 0;
  }

  /** Stripping is idempotent. */
  lemma {:induction false} StripIdempotent(s: string, cs: set<char>)
    ensures StripChars(StripChars(s, cs), cs) == StripChars(s, cs)
  {
    StripStable(StripChars(s, cs), cs);
  }

  /** Python `s[1:-1]`: empty for strings shorter than two characters. */
  function Inner(s: string): (r: string)
    ensures |s| >= 2 ==> [s[0]] + r + [s[|s| - 1]] == s
    ensures |s| < 2 ==> r == []
  {
    if |s| < 2 then [] else s[1..|s| - 1]
  }

  /** `(s.startswith(q) and s.endswith(q))` for `q` the double and then the
      single quote: one test Python code applies before dropping one pair. */
  predicate QuotedBy(s: string, q: char) {
    |s| > 0 && s[0] == q && s[|s| - 1] == q
  }

  /** Drops one surrounding pair of matching double or single quotes, and
      only one. */
  function Unquote(s: string): (r: string)
    ensures |s| >= 2 && s[0] in Quotes && s[|s| - 1] == s[0] ==> [s[0]] + r + [s[0]] == s
    ensures |s| == 1 && s[0] in Quotes ==> r == []
    ensures !(|s| > 0 && s[0] in Quotes && s[|s| - 1] == s[0]) ==> r == s
  {
    if QuotedBy(s, '"') || QuotedBy(s, '\'') then Inner(s) else s
  }

  /** A text wrapped in a pair of quotes comes back exactly, even when it
      is itself quoted. */
  lemma {:induction false} UnquotePair(q: char, x: string)
    requires q in Quotes
    ensures Unquote([q] + x + [q]) == x
  {
    var s := [q] + x + [q];
    assert s[1..|s| - 1] == x;
  }

  predicate IsDigit(c: char) {
    '0' <= c <= '9'
  }

  /** Python `s.isdigit()` (ASCII digits only). */
  predicate IsDigits(s: string) {
    |s| > 0 && forall k :: 0 <= k < |s| ==> IsDigit(s[k])
  }

  /** A full match of `-?\d+(\.\d+)?`. */
  predicate IsSignedDecimal(s: string) {
    var t := if |s| > 0 && s[0] == '-' then s[1..] else s;
    if '.' in t then
      var (a, b) := SplitFirst(t, '.');
      IsDigits(a) && IsDigits(b)
    else IsDigits(t)
  }

  /** Python `re.match(r'^-?\d+(\.\d+)?$', s)`; as in Python, `$` also
      matches just before one final newline. */
  predicate MatchesNumber(s: string) {
    IsSignedDecimal(s) || (|s| > 0 && s[|s| - 1] == '\n' && IsSignedDecimal(s[..|s| - 1]))
  }

  /** Python `s.isdigit() or re.match(r'^-?\d+(\.\d+)?$', s)`. */
  predicate LooksNumeric(s: string) {
    IsDigits(s) || MatchesNumber(s)
  }

  lemma {:induction false} DigitsAreNumeric(s: string)
    requires IsDigits(s)
    ensures MatchesNumber(s)
  {
    assert s[0] != '-';
    assert forall k :: 0 <= k < |s| ==> s[k] != '.';
  }

  function DigitValue(c: char): (d: nat)
    requires IsDigit(c)
    ensures d < 10
  {
    (c as int - '0' as int) as nat
  }

  /** The value of a string of decimal digits. */
  function DigitsValue(s: string): (n: nat)
    requires forall k :: 0 <= k < |s| ==> IsDigit(s[k])
  {
    if s == [] then 0 else 10 * DigitsValue(s[..|s| - 1]) + DigitValue(s[|s| - 1])
  }

  /** Python `int(s)` for a string matching `-?\d+`. */
  function ParseInt(s: string): (n: int)
    requires IsDigits(s) || (|s| > 1 && s[0] == '-' && IsDigits(s[1..]))
    ensures n < 0 ==> s[0] == '-'
  {
    if s[0] == '-' then -(DigitsValue(s[1..]) as int) else DigitsValue(s)
  }

  /** Python `str(n)` for a natural number. */
  function NatToString(n: nat): (s: string)
    ensures IsDigits(s)
    ensures DigitsValue(s) == n
    ensures s[0] == '0' ==> n == 0
    decreases n
  {
    var d := ['0' + (n % 10) as char];
    assert DigitValue(d[0]) == n % 10;
    if n < 10 then d
    else
      var p := NatToString(n / 10);
      var s := p + d;
      assert s[..|s| - 1] == p;
      s
  }

  predicate IsUpper(c: char) { 'A' <= c <= 'Z' }
  predicate IsLower(c: char) { 'a' <= c <= 'z' }
  predicate IsLetter(c: char) { IsUpper(c) || IsLower(c) }

  function LowerChar(c: char): (d: char)
    ensures IsLetter(c) ==> IsLower(d)
    ensures !IsLetter(c) ==> d == c
  {
    if IsUpper(c) then c - 'A' + 'a' else c
  }

  function UpperChar(c: char): (d: char)
    ensures IsLetter(c) ==> IsUpper(d)
    ensures !IsLetter(c) ==> d == c
  {
    if IsLower(c) then c - 'a' + 'A' else c
  }

  /** Python `s.lower()` (ASCII). */
  function Lower(s: string): (r: string)
    ensures |r| == |s|
    ensures forall k :: 0 <= k < |s| ==> r[k] == LowerChar(s[k])
  {
    if s == [] then [] else [LowerChar(s[0])] + Lower(s[1..])
  }

  /** Python `s.upper()` (ASCII). */
  function Upper(s: string): (r: string)
    ensures |r| == |s|
    ensures forall k :: 0 <= k < |s| ==> r[k] == UpperChar(s[k])
  {
    if s == [] then [] else [UpperChar(s[0])] + Upper(s[1..])
  }

  /** Python `s.title()` (ASCII), as the scan Python performs: a flag
      remembers whether the previous character was a letter. */
  function TitleFrom(s: string, afterLetter: bool): (r: string)
    ensures |r| == |s|
  {
    if s == [] then []
    else
      var c := if afterLetter then LowerChar(s[0]) else UpperChar(s[0]);
      [c] + TitleFrom(s[1..], IsLetter(s[0]))
  }

  function Title(s: string): string {
    TitleFrom(s, false)
  }

  /** What `title()` does to each position: a letter is upper-cased when it
      starts a run of letters and lower-cased otherwise; any other character
      is kept. */
  lemma {:induction false} TitleAt(s: string, afterLetter: bool, k: nat)
    requires k < |s|
    ensures var starts := if k == 0 then !afterLetter else !IsLetter(s[k - 1]);
            TitleFrom(s, afterLetter)[k] == (if starts then UpperChar(s[k]) else LowerChar(s[k]))
  {
    if k > 0 {
      TitleAt(s[1..], IsLetter(s[0]), k - 1);
    }
  }

  // ---------------------------------------------------------------------
  // Filtering a list through a partial map.

  /** The results `f` gives for the elements of `xs`, in order, skipping
      the elements it gives nothing for. */
  function Kept<A, B>(xs: seq<A>, f: A -> Option<B>): seq<B>
    decreases |xs|
  {
    if xs == [] then []
    else Kept(xs[..|xs| - 1], f) + OptionSeq(f(xs[|xs| - 1]))
  }

  function OptionSeq<B>(o: Option<B>): seq<B> {
    match o
    case None => []
    case Some(b) => [b]
  }

  lemma {:induction false} KeptSnoc<A, B>(xs: seq<A>, i: nat, f: A -> Option<B>)
    requires i < |xs|
    ensures Kept(xs[..i + 1], f) == Kept(xs[..i], f) + OptionSeq(f(xs[i]))
  {
    assert xs[..i + 1][..i] == xs[..i];
  }

  /** At most one result per element. */
  lemma {:induction false} KeptLength<A, B>(xs: seq<A>, f: A -> Option<B>)
    ensures |Kept(xs, f)| <= |xs|
    decreases |xs|
  {
    if xs != [] {
      KeptLength(xs[..|xs| - 1], f);
    }
  }

  /** Each result comes from some element. */
  lemma {:induction false} KeptFrom<A, B>(xs: seq<A>, f: A -> Option<B>, b: B)
    requires b in Kept(xs, f)
    ensures exists i :: 0 <= i < |xs| && f(xs[i]) == Some(b)
    decreases |xs|
  {
    var n := |xs|;
    var init := xs[..n - 1];
    if b in Kept(init, f) {
      KeptFrom(init, f, b);
      var i :| 0 <= i < n - 1 && f(init[i]) == Some(b);
      assert init[i] == xs[i];
    } else {
      assert f(xs[n - 1]) == Some(b);
    }
  }

  /** Each result `f` gives is kept. */
  lemma {:induction false} KeptHas<A, B>(xs: seq<A>, f: A -> Option<B>, i: nat)
    requires i < |xs| && f(xs[i]).Some?
    ensures f(xs[i]).value in Kept(xs, f)
    decreases |xs|
  {
    var n := |xs| - 1;
    var init := xs[..n];
    if i < n {
      assert init[i] == xs[i];
      KeptHas(init, f, i);
    }
  }

  /** No result exactly when `f` gives nothing for every element. */
  lemma {:induction false} KeptEmpty<A, B>(xs: seq<A>, f: A -> Option<B>)
    ensures Kept(xs, f) == [] <==> forall i :: 0 <= i < |xs| ==> f(xs[i]).None?
    decreases |xs|
  {
    if xs != [] {
      var n := |xs|;
      var init := xs[..n - 1];
      KeptEmpty(init, f);
      assert forall i :: 0 <= i < n - 1 ==> init[i] == xs[i];
    }
  }

  /** Slicing past a prefix slices what follows it. */
  lemma {:induction false} SlicesAfter<T>(c: seq<T>, y: seq<T>, g: nat, n: nat)
    requires g + n <= |y|
    ensures (c + y)[..|c| + g] == c + y[..g]
    ensures (c + y)[|c| + g + n..] == y[g + n..]
  {
  }

  /** A prefix of a string is a prefix of anything longer. */
  lemma {:induction false} StartsWithMore(a: string, b: string, p: string)
    requires StartsWith(a, p)
    ensures StartsWith(a + b, p)
  {
    assert (a + b)[..|p|] == a[..|p|];
  }

  lemma {:induction false} Assoc<T>(a: seq<T>, b: seq<T>, c: seq<T>)
    ensures a + (b + c) == a + b + c
  {
  }

  /** Putting the head back in front. */
  lemma {:induction false} ConsConcat<T>(a: seq<T>, b: seq<T>)
    requires a != []
    ensures [a[0]] + (a[1..] + b) == a + b
  {
    assert [a[0]] + a[1..] == a;
  }

  /** Concatenation and dropping the head commute. */
  lemma {:induction false} TailOfConcat<T>(a: seq<T>, b: seq<T>)
    requires a != []
    ensures (a + b)[1..] == a[1..] + b
  {
  }
}
