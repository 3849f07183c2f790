/** Shape inference for object literals found in request bodies: the
    ordered value classifier, the one-level nested extractor, the body
    builder and the shape-only equivalence of two bodies. */
module Shapes {
  import opened Text
  import opened Tokenizer

  datatype JsonType = StringType | NumberType | BooleanType | ArrayType | ObjectType

  /** The example attached to a top-level property.  A number with a `.`
      keeps its decimal text; the analyzer turns it into a float. */
  datatype Example =
    | BoolExample(b: bool)
    | IntExample(i: int)
    | DecimalExample(decimal: string)
    | TextExample(text: string)

  /** A property found one level down: its example is the value text. */
  datatype Field = Field(typ: JsonType, example: string)

  /** The descriptor stored for a top-level property: `items` only for
      arrays, `properties` only for objects whose nested extraction found
      something. */
  datatype Shape = Shape(typ: JsonType, example: Example, items: Option<JsonType>, properties: Option<map<string, Field>>)

  datatype BodyStructure = BodyStructure(contentType: string, properties: map<string, Shape>)

  const JsonContentType := "application/json"

  /** The example the analyzer substitutes for a `new Date(...)` value. */
  const DateExample := "2023-01-01T00:00:00Z"

  /** The sentinel property recorded for a body `{}`. */
  const EmptyObjectKey := "emptyObject"
  const EmptyObjectShape := Shape(ObjectType, TextExample("{}"), None, None)

  predicate IsBooleanLiteral(v: string) {
    v == "true" || v == "false"
  }

  predicate Bracketed(v: string, open: char, close: char) {
    |v| > 0 && v[0] == open && v[|v| - 1] == close
  }

  /** The key of a `key: value` token: trimmed, then one surrounding pair
      of matching quotes removed. */
  function CleanKey(raw: string): string {
    Unquote(Strip(raw))
  }

  /** A token split at its first colon into its cleaned key and its raw
      value; a token without a colon is skipped. */
  function KeyValue(token: string): Option<(string, string)> {
    if ':' in token then
      var (k, v) := SplitFirst(token, ':');
      Some((CleanKey(k), v))
    else None
  }

  /** The map the token loop builds: each token with a colon assigns its
      key, so a later token with the same key overwrites an earlier one. */
  function Collect<V>(tokens: seq<string>, f: string -> V): map<string, V> {
    if tokens == [] then map[]
    else
      var m := Collect(tokens[..|tokens| - 1], f);
      match KeyValue(tokens[|tokens| - 1])
      case None => m
      case Some((k, v)) => m[k := f(v)]
  }

  /** The type a nested property gets; its example is its trimmed value,
      with quotes removed when it starts with one. */
  function NestedField(raw: string): Field {
    var v := Strip(raw);
    if IsBooleanLiteral(v) then Field(BooleanType, v)
    else if LooksNumeric(v) then Field(NumberType, v)
    else if Bracketed(v, '[', ']') then Field(ArrayType, v)
    else if Bracketed(v, '{', '}') then Field(ObjectType, v)
    else if v != [] && v[0] in Quotes then Field(StringType, StripChars(v, Quotes))
    else Field(StringType, v)
  }

  /** `_extract_nested_object_properties`: one level of properties of a
      braced object text; nothing for text that is not braced. */
  function NestedProperties(objectText: string): map<string, Field> {
    if Bracketed(objectText, '{', '}') then Collect(Tokens(Strip(Inner(objectText))), NestedField)
    else map[]
  }

  /** The type of an array's items, judged from its first top-level item. */
  function ItemType(arrayText: string): JsonType {
    var content := Strip(Inner(arrayText));
    var items := if content == [] then [] else Tokens(content);
    if items == [] then StringType
    else
      var sample := items[0];
      if LooksNumeric(sample) then NumberType
      else if IsBooleanLiteral(sample) then BooleanType
      else if Bracketed(sample, '{', '}') then ObjectType
      else StringType
  }

  /** A trimmed numeral without a `.` is an optionally negative run of
      digits, so `int()` accepts it. */
  lemma {:induction false} IntegerNumeral(v: string)
    requires LooksNumeric(v) && '.' !in v && (v == [] || v[|v| - 1] != '\n')
    ensures IsDigits(v) || (|v| > 1 && v[0] == '-' && IsDigits(v[1..]))
  {
    if !IsDigits(v) {
      assert IsSignedDecimal(v);
      var t := if |v| > 0 && v[0] == '-' then v[1..] else v;
      assert forall k :: 0 <= k < |t| ==> t[k] in v;
    }
  }

  /** The ordered classification of one property value. */
  function Classify(raw: string): Shape {
    var v := Strip(raw);
    if IsBooleanLiteral(v) then Shape(BooleanType, BoolExample(v == "true"), None, None)
    else if LooksNumeric(v) then
      if '.' in v then Shape(NumberType, DecimalExample(v), None, None)
      else
        assert '\n' in Whitespace;
        IntegerNumeral(v);
        Shape(NumberType, IntExample(ParseInt(v)), None, None)
    else if Bracketed(v, '[', ']') then Shape(ArrayType, TextExample(v), Some(ItemType(v)), None)
    else if Bracketed(v, '{', '}') then
      var nested := NestedProperties(v);
      Shape(ObjectType, TextExample(v), None, if nested != map[] then Some(nested) else None)
    else if v != [] && v[0] in Quotes then Shape(StringType, TextExample(StripChars(v, Quotes)), None, None)
    else if StartsWith(v, "new ") && Contains(v, "Date") then Shape(StringType, TextExample(DateExample), None, None)
    else Shape(StringType, TextExample(v), None, None)
  }

  /** The properties `_extract_body_structure` builds, or `None` when the
      text is not a braced object. */
  function BodyProperties(bodyText: string): Option<map<string, Shape>> {
    var b := Strip(bodyText);
    if !Bracketed(b, '{', '}') then None
    else
      var inside := Strip(Inner(b));
      if inside == [] then Some(map[EmptyObjectKey := EmptyObjectShape])
      else Some(Collect(Tokens(inside), Classify))
  }

  /** The body that is offered to the endpoint: only when properties were
      found. */
  function BodyOf(bodyText: string): Option<BodyStructure> {
    match BodyProperties(bodyText)
    case Some(props) => if props != map[] then Some(BodyStructure(JsonContentType, props)) else None
    case None => None
  }

  /** `_compare_body_structures`: same content type, same emptiness, same
      property names and the same type for every property; examples,
      items and nested properties are not compared. */
  predicate Equivalent(b1: BodyStructure, b2: BodyStructure) {
    && b1.contentType == b2.contentType
    && (b1.properties == map[]) == (b2.properties == map[])
    && b1.properties.Keys == b2.properties.Keys
    && forall k :: k in b1.properties ==> b1.properties[k].typ == b2.properties[k].typ
  }

  /** One more token in the loop: an assignment when it has a colon. */
  lemma {:induction false} CollectStep<V>(tokens: seq<string>, i: nat, f: string -> V)
    requires i < |tokens|
    ensures ':' in tokens[i] ==>
      var (k, v) := SplitFirst(tokens[i], ':');
      Collect(tokens[..i + 1], f) == Collect(tokens[..i], f)[CleanKey(k) := f(v)]
    ensures ':' !in tokens[i] ==> Collect(tokens[..i + 1], f) == Collect(tokens[..i], f)
  {
    assert tokens[..i + 1][..i] == tokens[..i];
  }

  // ---------------------------------------------------------------------
  // The loops of the analyzer, proved against the functions above.

  /** `_extract_nested_object_properties`. */
  method ExtractNestedObjectProperties(objectText: string) returns (properties: map<string, Field>)
    ensures properties == NestedProperties(objectText)
  {
    properties := map[];
    if Bracketed(objectText, '{', '}') {
      var tokens := Tokenize(Strip(Inner(objectText)));
      for i := 0 to |tokens|
        invariant properties == Collect(tokens[..i], NestedField)
      {
        CollectStep(tokens, i, NestedField);
        var token := tokens[i];
        if ':' in token {
          var (key, value) := SplitFirst(token, ':');
          properties := properties[CleanKey(key) := NestedField(value)];
        }
      }
      assert tokens[..|tokens|] == tokens;
    }
  }

  /** The classification chain inside the token loop of
      `_extract_body_structure`, with the array and nested-object helpers it
      calls, run step by step as the source does; `Classify` is the
      definition it computes and the one the lemmas reason about. */
  method ClassifyValue(raw: string) returns (shape: Shape)
    ensures shape == Classify(raw)
  {
    var value := Strip(raw);
    if value == "true" || value == "false" {
      shape := Shape(BooleanType, BoolExample(value == "true"), None, None);
    } else if IsDigits(value) || MatchesNumber(value) {
      if '.' in value {
        shape := Shape(NumberType, DecimalExample(value), None, None);
      } else {
        assert '\n' in Whitespace;
        IntegerNumeral(value);
        shape := Shape(NumberType, IntExample(ParseInt(value)), None, None);
      }
    } else if Bracketed(value, '[', ']') {
      var itemsType := StringType;
      var arrayContent := Strip(Inner(value));
      if arrayContent != [] {
        var arrayItems := Tokenize(arrayContent);
        if arrayItems != [] {
          var sample := arrayItems[0];
          if IsDigits(sample) || MatchesNumber(sample) {
            itemsType := NumberType;
          } else if sample == "true" || sample == "false" {
            itemsType := BooleanType;
          } else if Bracketed(sample, '{', '}') {
            itemsType := ObjectType;
          }
        }
      }
      shape := Shape(ArrayType, TextExample(value), Some(itemsType), None);
    } else if Bracketed(value, '{', '}') {
      var nested := ExtractNestedObjectProperties(value);
      shape := Shape(ObjectType, TextExample(value), None, if nested != map[] then Some(nested) else None);
    } else if value != [] && (value[0] == '"' || value[0] == '\'') {
      shape := Shape(StringType, TextExample(StripChars(value, Quotes)), None, None);
    } else if StartsWith(value, "new ") && Contains(value, "Date") {
      shape := Shape(StringType, TextExample(DateExample), None, None);
    } else {
      shape := Shape(StringType, TextExample(value), None, None);
    }
  }

  /** The extraction half of `_extract_body_structure`. */
  method ExtractBodyProperties(bodyText: string) returns (properties: Option<map<string, Shape>>)
    ensures properties == BodyProperties(bodyText)
  {
    var body := Strip(bodyText);
    if !Bracketed(body, '{', '}') {
      return None;
    }
    var inside := Strip(Inner(body));
    if inside == [] {
      return Some(map[EmptyObjectKey := EmptyObjectShape]);
    }
    var props: map<string, Shape> := map[];
    var tokens := Tokenize(inside);
    for i := 0 to |tokens|
      invariant props == Collect(tokens[..i], Classify)
    {
      CollectStep(tokens, i, Classify);
      var token := tokens[i];
      if ':' in token {
        var (key, value) := SplitFirst(token, ':');
        var shape := ClassifyValue(value);
        props := props[CleanKey(key) := shape];
      }
    }
    assert tokens[..|tokens|] == tokens;
    properties := Some(props);
  }

  // ---------------------------------------------------------------------
  // Properties of the classification.

  lemma {:induction false} SignedDecimalStart(w: string)
    requires IsSignedDecimal(w)
    ensures |w| > 0 && (IsDigit(w[0]) || w[0] == '-')
  {
    var t := if |w| > 0 && w[0] == '-' then w[1..] else w;
    if '.' in t {
      var (a, b) := SplitFirst(t, '.');
      assert t == a + ['.'] + b && |a| > 0;
      assert t[0] == a[0];
    }
  }

  /** Anything the number test accepts starts with a digit or `-`. */
  lemma {:induction false} NumeralStart(v: string)
    requires LooksNumeric(v)
    ensures |v| > 0 && (IsDigit(v[0]) || v[0] == '-')
  {
    if !IsDigits(v) {
      if IsSignedDecimal(v) {
        SignedDecimalStart(v);
      } else {
        var w := v[..|v| - 1];
        SignedDecimalStart(w);
        assert w[0] == v[0];
      }
    }
  }

  /** The type is decided by the first test that matches, in the order
      boolean, number, array, object; everything else is a string.  Only
      arrays carry an item type and only objects nested properties. */
  lemma {:induction false} ClassificationOrder(raw: string)
    ensures var v, s := Strip(raw), Classify(raw);
      && (s.typ == BooleanType <==> IsBooleanLiteral(v))
      && (s.typ == NumberType <==> LooksNumeric(v))
      && (s.typ == ArrayType <==> Bracketed(v, '[', ']'))
      && (s.typ == ObjectType <==> Bracketed(v, '{', '}'))
      && (s.typ == StringType <==>
            !IsBooleanLiteral(v) && !LooksNumeric(v) && !Bracketed(v, '[', ']') && !Bracketed(v, '{', '}'))
      && (s.items.Some? <==> s.typ == ArrayType)
      && (s.properties.Some? ==> s.typ == ObjectType)
  {
    var v, s := Strip(raw), Classify(raw);
    if LooksNumeric(v) {
      NumeralStart(v);
    }
    if IsBooleanLiteral(v) {
      assert s.typ == BooleanType && s.items.None? && s.properties.None?;
    } else if LooksNumeric(v) {
      assert s.typ == NumberType && s.items.None? && s.properties.None?;
    } else if Bracketed(v, '[', ']') {
      assert s.typ == ArrayType && s.items.Some? && s.properties.None?;
    } else if Bracketed(v, '{', '}') {
      assert s.typ == ObjectType && s.items.None?;
    } else {
      assert s.typ == StringType && s.items.None? && s.properties.None?;
    }
  }

  /** A value in quotes is a string whose example has the quotes removed,
      whatever it contains: a quoted numeral is never a number. */
  lemma {:induction false} QuotedIsString(raw: string)
    requires var v := Strip(raw); v != [] && v[0] in Quotes
    ensures Classify(raw) == Shape(StringType, TextExample(StripChars(Strip(raw), Quotes)), None, None)
  {
    var v := Strip(raw);
    assert !IsBooleanLiteral(v);
    assert !Bracketed(v, '[', ']') && !Bracketed(v, '{', '}');
    assert !LooksNumeric(v) by {
      if LooksNumeric(v) {
        NumeralStart(v);
      }
    }
  }

  lemma {:induction false} StripCharsPadded(x: string, q: char, cs: set<char>)
    requires q in cs && x != [] && x[0] !in cs && x[|x| - 1] !in cs
    ensures StripChars([q] + x + [q], cs) == x
  {
    var s := [q] + x + [q];
    assert s[1..] == x + [q];
    assert LeadingCount(x + [q], cs) == 0;
    assert LeadingCount(s, cs) == 1;
    assert (x + [q])[..|x|] == x;
    assert TrailingCount(x, cs) == 0;
    assert TrailingCount(s[1..], cs) == 1;
    assert s[1..|s| - 1] == x;
  }

  lemma {:induction false} DigitsNotSpaceOrQuote(d: string)
    requires IsDigits(d)
    ensures d[0] !in Whitespace && d[|d| - 1] !in Whitespace
    ensures d[0] !in Quotes && d[|d| - 1] !in Quotes
    ensures '.' !in d
  {
    assert forall c :: IsDigit(c) ==> c !in Whitespace && c !in Quotes;
    assert forall k :: 0 <= k < |d| ==> d[k] != '.';
  }

  /** `'42'` or `"42"`: a string with example `42`. */
  lemma {:induction false} QuotedNumeralIsString(q: char, d: string)
    requires q in Quotes && IsDigits(d)
    ensures Classify([q] + d + [q]) == Shape(StringType, TextExample(d), None, None)
  {
    var v := [q] + d + [q];
    DigitsNotSpaceOrQuote(d);
    StripStable(v, Whitespace);
    QuotedIsString(v);
    StripCharsPadded(d, q, Quotes);
  }

  /** Printing a whole number and classifying the text gives the number
      back as an integer example. */
  lemma {:induction false} IntegerRoundTrip(n: nat)
    ensures Classify(NatToString(n)) == Shape(NumberType, IntExample(n), None, None)
  {
    var d := NatToString(n);
    DigitsNotSpaceOrQuote(d);
    StripStable(d, Whitespace);
    DigitsAreNumeric(d);
    assert !IsBooleanLiteral(d);
    assert ParseInt(d) == n;
  }

  /** The same for a negative whole number. */
  lemma {:induction false} NegativeRoundTrip(n: nat)
    ensures Classify("-" + NatToString(n)) == Shape(NumberType, IntExample(-(n as int)), None, None)
  {
    var d := NatToString(n);
    DigitsNotSpaceOrQuote(d);
    var m := "-" + d;
    assert m[1..] == d && m[0] == '-' && m[|m| - 1] == d[|d| - 1];
    StripStable(m, Whitespace);
    assert forall k :: 0 <= k < |m| ==> m[k] != '.';
    assert IsSignedDecimal(m);
    assert !IsBooleanLiteral(m);
    assert ParseInt(m) == -(n as int);
  }

  /** A braced value keeps type object and its own text as example even
      when nothing is found inside it; nested properties are attached only
      when there are some. */
  lemma {:induction false} ObjectKeepsType(raw: string)
    requires Bracketed(Strip(raw), '{', '}')
    ensures var v := Strip(raw);
      && Classify(raw).typ == ObjectType
      && Classify(raw).example == TextExample(v)
      && (Classify(raw).properties == if NestedProperties(v) == map[] then None else Some(NestedProperties(v)))
  {
    ClassificationOrder(raw);
  }

  /** An array whose inside is blank has string items. */
  lemma {:induction false} EmptyArrayItems(raw: string)
    requires var v := Strip(raw); Bracketed(v, '[', ']') && Strip(Inner(v)) == []
    ensures Classify(raw) == Shape(ArrayType, TextExample(Strip(raw)), Some(StringType), None)
  {
    ClassificationOrder(raw);
  }

  // ---------------------------------------------------------------------
  // Properties of the key/value loop.

  predicate Names(token: string, k: string) {
    KeyValue(token).Some? && KeyValue(token).value.0 == k
  }

  /** `key: value` splits at the first colon; the key is cleaned and the
      value is passed on untouched. */
  lemma {:induction false} KeyValueSplit(k: string, v: string)
    requires ':' !in k
    ensures KeyValue(k + ":" + v) == Some((CleanKey(k), v))
  {
    SplitFirstOf(k, ':', v);
    assert k + ":" + v == k + [':'] + v;
  }

  /** A key in matching quotes loses exactly that one pair. */
  lemma {:induction false} QuotedKey(q: char, k: string)
    requires q in Quotes
    ensures CleanKey([q] + k + [q]) == k
  {
    var s := [q] + k + [q];
    StripStable(s, Whitespace);
    assert s[1..|s| - 1] == k;
  }

  /** One more token updates the map by its own key, if it has one. */
  lemma {:induction false} CollectLast<V>(tokens: seq<string>, f: string -> V)
    requires tokens != []
    ensures var kv := KeyValue(tokens[|tokens| - 1]);
      var m := Collect(tokens[..|tokens| - 1], f);
      Collect(tokens, f) == if kv.Some? then m[kv.value.0 := f(kv.value.1)] else m
  {
  }

  lemma {:induction false} CollectHas<V>(tokens: seq<string>, f: string -> V, k: string)
    requires tokens != []
    ensures k in Collect(tokens, f) <==>
      k in Collect(tokens[..|tokens| - 1], f) || Names(tokens[|tokens| - 1], k)
  {
    CollectLast(tokens, f);
  }

  /** The keys of the map are exactly the names of the tokens that have a
      colon. */
  lemma {:induction false} CollectKeys<V>(tokens: seq<string>, f: string -> V, k: string)
    ensures k in Collect(tokens, f) <==> exists i :: 0 <= i < |tokens| && Names(tokens[i], k)
  {
    if k in Collect(tokens, f) {
      var i := CollectKeyFrom(tokens, f, k);
    }
    if exists i :: 0 <= i < |tokens| && Names(tokens[i], k) {
      var i :| 0 <= i < |tokens| && Names(tokens[i], k);
      CollectKeyBy(tokens, f, i, k);
    }
  }

  /** A key of the map is named by some token. */
  lemma {:induction false} CollectKeyFrom<V>(tokens: seq<string>, f: string -> V, k: string) returns (i: nat)
    requires k in Collect(tokens, f)
    ensures i < |tokens| && Names(tokens[i], k)
    decreases |tokens|
  {
    var n := |tokens|;
    var init := tokens[..n - 1];
    CollectHas(tokens, f, k);
    if Names(tokens[n - 1], k) {
      i := n - 1;
    } else {
      i := CollectKeyFrom(init, f, k);
      assert init[i] == tokens[i];
    }
  }

  /** Every token's name is a key of the map. */
  lemma {:induction false} CollectKeyBy<V>(tokens: seq<string>, f: string -> V, i: nat, k: string)
    requires i < |tokens| && Names(tokens[i], k)
    ensures k in Collect(tokens, f)
    decreases |tokens|
  {
    var n := |tokens|;
    var init := tokens[..n - 1];
    if i < n - 1 {
      assert init[i] == tokens[i];
      CollectKeyBy(init, f, i, k);
      assert k in Collect(init, f);
    } else {
      assert Names(tokens[n - 1], k);
    }
    CollectHas(tokens, f, k);
  }

  /** The value stored for a key comes from the last token that names it:
      a repeated key keeps its last value. */
  lemma {:induction false} CollectLastWins<V>(tokens: seq<string>, f: string -> V, i: nat, k: string, v: string)
    requires i < |tokens| && KeyValue(tokens[i]) == Some((k, v))
    requires forall j :: i < j < |tokens| ==> !Names(tokens[j], k)
    ensures k in Collect(tokens, f) && Collect(tokens, f)[k] == f(v)
    decreases |tokens|
  {
    var n := |tokens|;
    var init := tokens[..n - 1];
    if i < n - 1 {
      assert init[i] == tokens[i];
      assert forall j :: i < j < n - 1 ==> init[j] == tokens[j];
      CollectLastWins(init, f, i, k, v);
      assert !Names(tokens[n - 1], k);
      CollectOther(tokens, f, k);
    } else {
      CollectLast(tokens, f);
    }
  }

  /** A token that does not name a key leaves that key's entry alone. */
  lemma {:induction false} CollectOther<V>(tokens: seq<string>, f: string -> V, k: string)
    requires tokens != [] && !Names(tokens[|tokens| - 1], k)
    ensures var m := Collect(tokens[..|tokens| - 1], f);
      k in m ==> k in Collect(tokens, f) && Collect(tokens, f)[k] == m[k]
  {
    CollectLast(tokens, f);
  }

  // ---------------------------------------------------------------------
  // Properties of bodies and their equivalence.

  /** A body is offered only for braced text with at least one property;
      a blank inside gives the one sentinel property. */
  lemma {:induction false} BodyAccepted(bodyText: string)
    ensures BodyOf(bodyText).Some? ==>
      && Bracketed(Strip(bodyText), '{', '}')
      && BodyOf(bodyText).value.contentType == JsonContentType
      && BodyOf(bodyText).value.properties != map[]
    ensures var b := Strip(bodyText);
      Bracketed(b, '{', '}') && Strip(Inner(b)) == [] ==>
        BodyOf(bodyText) == Some(BodyStructure(JsonContentType, map[EmptyObjectKey := EmptyObjectShape]))
  {
    var sentinel := map[EmptyObjectKey := EmptyObjectShape];
    assert EmptyObjectKey in sentinel;
    assert sentinel != map[];
  }

  /** The part of a body that equivalence looks at: each property's type. */
  function TypesOf(b: BodyStructure): map<string, JsonType> {
    map k | k in b.properties :: b.properties[k].typ
  }

  /** Two bodies are equivalent exactly when their content types and
      their name-to-type maps are equal; the emptiness test adds nothing. */
  lemma {:induction false} EquivalentIffSameTypes(b1: BodyStructure, b2: BodyStructure)
    ensures Equivalent(b1, b2) <==> b1.contentType == b2.contentType && TypesOf(b1) == TypesOf(b2)
  {
    if b1.contentType == b2.contentType && TypesOf(b1) == TypesOf(b2) {
      assert b1.properties.Keys == TypesOf(b1).Keys == TypesOf(b2).Keys == b2.properties.Keys;
      if b1.properties == map[] {
        assert b2.properties.Keys == {};
      }
      if b2.properties == map[] {
        assert b1.properties.Keys == {};
      }
    }
    if Equivalent(b1, b2) {
      assert forall k :: k in TypesOf(b1) <==> k in TypesOf(b2);
    }
  }

  /** Equivalence is an equivalence relation. */
  lemma {:induction false} EquivalenceRelation(b1: BodyStructure, b2: BodyStructure, b3: BodyStructure)
    ensures Equivalent(b1, b1)
    ensures Equivalent(b1, b2) ==> Equivalent(b2, b1)
    ensures Equivalent(b1, b2) && Equivalent(b2, b3) ==> Equivalent(b1, b3)
  {
    EquivalentIffSameTypes(b1, b1);
    EquivalentIffSameTypes(b1, b2);
    EquivalentIffSameTypes(b2, b1);
    EquivalentIffSameTypes(b2, b3);
    EquivalentIffSameTypes(b1, b3);
  }
}
