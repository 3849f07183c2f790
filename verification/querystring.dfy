/** Splitting the query component of a URL into `key=value` pieces, as the
    three analyzers do it: pieces are separated by `&`, a piece is cut at
    its first `=`, and a piece without `=` is a key without a value.  The
    percent-decoding of values is a parameter (the identity where a caller
    does not decode). */
module QueryString {
  import opened Text

  type Pair = (string, Option<string>)

  /** One `&`-piece as a key and its decoded value. */
  function PairOf(piece: string, decode: string -> string): (p: Pair)
    ensures '=' !in p.0
    ensures '=' !in piece ==> p == (piece, None)
    ensures '=' in piece ==>
      && |p.0| < |piece| && piece[..|p.0|] == p.0 && piece[|p.0|] == '='
      && p.1 == Some(decode(piece[|p.0| + 1..]))
  {
    if '=' in piece then
      var (key, value) := SplitFirst(piece, '=');
      assert piece == key + ['='] + value;
      assert piece[..|key|] == key && piece[|key| + 1..] == value;
      (key, Some(decode(value)))
    else (piece, None)
  }

  /** The pairs of a query string, one per `&`-piece, in order. */
  function Pairs(query: string, decode: string -> string): (ps: seq<Pair>)
    ensures |ps| == |Split(query, '&')|
    ensures forall i :: 0 <= i < |ps| ==> ps[i] == PairOf(Split(query, '&')[i], decode)
  {
    var pieces := Split(query, '&');
    seq(|pieces|, i requires 0 <= i < |pieces| => PairOf(pieces[i], decode))
  }

  /** Percent-decoding left out: the value text as it stands. */
  function Raw(s: string): string { s }

  // ---------------------------------------------------------------------
  // Grouping: every value of a repeated key is kept (a `defaultdict(list)`).

  function ValuesAt(m: map<string, seq<Option<string>>>, key: string): seq<Option<string>> {
    if key in m then m[key] else []
  }

  /** The map the grouping loop builds, one pair after another. */
  function Grouped(pairs: seq<Pair>): map<string, seq<Option<string>>>
    decreases |pairs|
  {
    if pairs == [] then map[]
    else
      var m := Grouped(pairs[..|pairs| - 1]);
      var (k, v) := pairs[|pairs| - 1];
      m[k := ValuesAt(m, k) + [v]]
  }

  /** Reference definition: the values of the pairs named `key`, in order. */
  function ValuesFor(pairs: seq<Pair>, key: string): seq<Option<string>> {
    if pairs == [] then []
    else (if pairs[0].0 == key then [pairs[0].1] else []) + ValuesFor(pairs[1..], key)
  }

  predicate HasKey(pairs: seq<Pair>, key: string) {
    exists i :: 0 <= i < |pairs| && pairs[i].0 == key
  }

  /** `_parse_query_string`. */
  method ParseQueryString(query: string, decode: string -> string) returns (params: map<string, seq<Option<string>>>)
    ensures params == Grouped(Pairs(query, decode))
  {
    var pieces := Split(query, '&');
    ghost var pairs := Pairs(query, decode);
    params := map[];
    for i := 0 to |pieces|
      invariant params == Grouped(pairs[..i])
    {
      var piece := pieces[i];
      if '=' in piece {
        var (key, value) := SplitFirst(piece, '=');
        params := params[key := ValuesAt(params, key) + [Some(decode(value))]];
      } else {
        params := params[piece := ValuesAt(params, piece) + [None]];
      }
      assert pairs[..i + 1][..i] == pairs[..i];
    }
    assert pairs[..|pieces|] == pairs;
  }

  lemma {:induction false} ValuesForSnoc(pairs: seq<Pair>, p: Pair, key: string)
    ensures ValuesFor(pairs + [p], key) == ValuesFor(pairs, key) + (if p.0 == key then [p.1] else [])
    decreases |pairs|
  {
    if pairs == [] {
      assert [p][1..] == [];
    } else {
      assert (pairs + [p])[1..] == pairs[1..] + [p];
      ValuesForSnoc(pairs[1..], p, key);
    }
  }

  /** The grouped map has an entry exactly for the keys that occur, and
      that entry lists every value given for the key, in order: one entry
      per piece. */
  lemma {:induction false} GroupedValues(pairs: seq<Pair>, key: string)
    ensures key in Grouped(pairs) <==> HasKey(pairs, key)
    ensures ValuesAt(Grouped(pairs), key) == ValuesFor(pairs, key)
    decreases |pairs|
  {
    if pairs != [] {
      var n := |pairs|;
      var init := pairs[..n - 1];
      GroupedValues(init, key);
      assert pairs == init + [pairs[n - 1]];
      ValuesForSnoc(init, pairs[n - 1], key);
      assert forall i :: 0 <= i < n - 1 ==> init[i] == pairs[i];
      if HasKey(pairs, key) && pairs[n - 1].0 != key {
        var i :| 0 <= i < n && pairs[i].0 == key;
        assert init[i].0 == key;
      }
    }
  }

  // ---------------------------------------------------------------------
  // Plain dictionaries: a later pair overwrites an earlier one.

  /** The dictionary the assignment loop builds, one pair after another. */
  function LastWins(pairs: seq<Pair>): map<string, Option<string>>
    decreases |pairs|
  {
    if pairs == [] then map[]
    else
      var (k, v) := pairs[|pairs| - 1];
      LastWins(pairs[..|pairs| - 1])[k := v]
  }

  /** The loop that fills a plain dictionary from a query string. */
  method ParamsDict(query: string, decode: string -> string) returns (params: map<string, Option<string>>)
    ensures params == LastWins(Pairs(query, decode))
  {
    var pieces := Split(query, '&');
    ghost var pairs := Pairs(query, decode);
    params := map[];
    for i := 0 to |pieces|
      invariant params == LastWins(pairs[..i])
    {
      var piece := pieces[i];
      if '=' in piece {
        var (key, value) := SplitFirst(piece, '=');
        params := params[key := Some(decode(value))];
      } else {
        params := params[piece := None];
      }
      assert pairs[..i + 1][..i] == pairs[..i];
    }
    assert pairs[..|pieces|] == pairs;
  }

  /** The dictionary keeps, for each key that occurs, the value of its
      last occurrence: the last of the grouped values. */
  lemma {:induction false} LastWinsIsLastValue(pairs: seq<Pair>, key: string)
    ensures key in LastWins(pairs) <==> key in Grouped(pairs)
    ensures key in LastWins(pairs) ==>
      var vs := Grouped(pairs)[key]; |vs| > 0 && LastWins(pairs)[key] == vs[|vs| - 1]
    decreases |pairs|
  {
    if pairs != [] {
      LastWinsIsLastValue(pairs[..|pairs| - 1], key);
    }
  }

  /** A pair that no later pair overrides decides its key's value. */
  lemma {:induction false} LastWinsAt(pairs: seq<Pair>, i: nat)
    requires i < |pairs|
    requires forall j :: i < j < |pairs| ==> pairs[j].0 != pairs[i].0
    ensures pairs[i].0 in LastWins(pairs) && LastWins(pairs)[pairs[i].0] == pairs[i].1
  {
    var key := pairs[i].0;
    LastWinsIsLastValue(pairs, key);
    GroupedValues(pairs, key);
    LastOfValues(pairs, i);
  }

  lemma {:induction false} LastOfValues(pairs: seq<Pair>, i: nat)
    requires i < |pairs|
    requires forall j :: i < j < |pairs| ==> pairs[j].0 != pairs[i].0
    ensures var vs := ValuesFor(pairs, pairs[i].0); |vs| > 0 && vs[|vs| - 1] == pairs[i].1
    decreases |pairs|
  {
    var n := |pairs|;
    var init := pairs[..n - 1];
    assert pairs == init + [pairs[n - 1]];
    ValuesForSnoc(init, pairs[n - 1], pairs[i].0);
    if i < n - 1 {
      assert init[i] == pairs[i];
      assert forall j :: i < j < n - 1 ==> init[j] == pairs[j];
      LastOfValues(init, i);
    }
  }
}
