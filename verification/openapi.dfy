/** The OpenAPI 3.0.0 document built from the analyzer's endpoint records:
    one path entry per normalised endpoint key, one operation per
    lower-case HTTP method (the first definition wins), parameters typed
    from the recorded values, and a request-body schema for POST, PUT and
    PATCH. */
module OpenApi {
  import opened Text
  import opened Shapes
  import opened Aggregator
  import opened OpenApiPaths
  import Analyzer

  // ---------------------------------------------------------------------
  // The input: one endpoint record as it is read back from JSON.  A key
  // missing from the JSON object behaves like an empty list or object,
  // except `http_methods`, which defaults to `["GET"]`.

  /** A property descriptor of a recorded body; `type` and `example` may
      be missing. */
  datatype PropertyInput = PropertyInput(typ: Option<string>, example: Option<Example>)

  /** A recorded body; `contentType` and `properties` may be missing. */
  datatype BodyInput = BodyInput(contentType: Option<string>, properties: Option<map<string, PropertyInput>>)

  datatype EndpointInput = EndpointInput(
    params: map<string, seq<Option<string>>>,
    templateParams: seq<string>,
    dynamicPatterns: seq<string>,
    httpMethods: Option<seq<string>>,
    requestBodies: seq<BodyInput>)

  // ---------------------------------------------------------------------
  // The output.

  datatype Location = InPath | InQuery

  datatype Parameter = Parameter(name: string, location: Location, required: bool, typ: string, dynamic: bool)

  datatype SchemaProperty = SchemaProperty(typ: string, example: Option<Example>)

  /** `{"$ref": "#/components/schemas/<schemaName>"}` under the content type. */
  datatype RequestBody = RequestBody(contentType: string, schemaName: string)

  /** An operation; `parameters` is the path parameters, then the query
      parameters, then the dynamic ones. */
  datatype Operation = Operation(
    summary: string,
    operationId: string,
    tags: seq<string>,
    pathParameters: seq<Parameter>,
    queryParameters: map<string, Parameter>,
    dynamicParameters: seq<Parameter>,
    requestBody: Option<RequestBody>)

  /** The parts of the document the generator changes: `paths`, the
      `components/schemas` object, and whether that object is present. */
  datatype Spec = Spec(
    paths: map<string, map<string, Operation>>,
    schemas: map<string, map<string, SchemaProperty>>,
    schemasListed: bool)

  const Initial := Spec(map[], map[], true)

  // ---------------------------------------------------------------------
  // Names and tags.

  /** The separators of `re.split(r'[/{}-]', ...)`. */
  const Separators: set<char> := {'/', '{', '}', '-'}

  /** `re.split` on a character class: the pieces between separators,
      empty ones included. */
  function SplitOn(s: string, cs: set<char>): (parts: seq<string>)
    ensures |parts| >= 1
    ensures forall k, j :: 0 <= k < |parts| && 0 <= j < |parts[k]| ==> parts[k][j] !in cs
    decreases |s|
  {
    if s == [] then [[]]
    else
      var rest := SplitOn(s[1..], cs);
      if s[0] in cs then [[]] + rest else [[s[0]] + rest[0]] + rest[1..]
  }

  /** The text with the characters of `cs` removed. */
  function Without(s: string, cs: set<char>): string {
    if s == [] then [] else (if s[0] in cs then [] else [s[0]]) + Without(s[1..], cs)
  }

  function Concat(parts: seq<string>): string {
    if parts == [] then [] else parts[0] + Concat(parts[1..])
  }

  /** `[part for part in parts if part and not part.startswith('{')]`. */
  function KeptParts(parts: seq<string>): seq<string> {
    if parts == [] then []
    else (if parts[0] != [] && parts[0][0] != '{' then [parts[0]] else []) + KeptParts(parts[1..])
  }

  function PathParts(path: string): seq<string> {
    KeptParts(SplitOn(StripChars(path, {'/'}), Separators))
  }

  function Titled(parts: seq<string>): string {
    if parts == [] then [] else Title(parts[0]) + Titled(parts[1..])
  }

  /** `_generate_operation_id`. */
  function OperationId(m: string, path: string): string {
    m + Titled(PathParts(path))
  }

  /** `_create_schema_name`. */
  function SchemaName(m: string, path: string): string {
    Titled(PathParts(path)) + Title(m) + "Body"
  }

  /** `_extract_tag`. */
  function Tag(path: string): string {
    var parts := Split(StripChars(path, {'/'}), '/');
    if |parts| > 0 then parts[0] else "api"
  }

  /** Splitting keeps every character that is not a separator, in order. */
  lemma {:induction false} SplitOnKeeps(s: string, cs: set<char>)
    ensures Concat(SplitOn(s, cs)) == Without(s, cs)
    decreases |s|
  {
    if s != [] {
      var rest := SplitOn(s[1..], cs);
      SplitOnKeeps(s[1..], cs);
      if s[0] in cs {
        assert ([[]] + rest)[1..] == rest;
      } else {
        var parts := [[s[0]] + rest[0]] + rest[1..];
        assert parts[1..] == rest[1..];
        assert Concat(rest) == rest[0] + Concat(rest[1..]);
      }
    }
  }

  /** The `startswith('{')` test never removes a part: `{` is itself a
      separator, so only the empty parts are dropped. */
  lemma {:induction false} KeptPartsDropsOnlyEmpty(parts: seq<string>)
    requires forall k :: 0 <= k < |parts| ==> '{' !in parts[k]
    ensures Concat(KeptParts(parts)) == Concat(parts)
    ensures forall p :: p in KeptParts(parts) <==> p in parts && p != []
    decreases |parts|
  {
    if parts != [] {
      var rest := KeptParts(parts[1..]);
      KeptPartsDropsOnlyEmpty(parts[1..]);
      if parts[0] != [] {
        assert parts[0][0] in parts[0];
        assert KeptParts(parts) == [parts[0]] + rest;
        assert ([parts[0]] + rest)[1..] == rest;
      } else {
        assert KeptParts(parts) == rest;
      }
      assert forall p :: p in parts <==> p == parts[0] || p in parts[1..];
    }
  }

  /** The name parts of a path are its non-separator characters, so a
      path parameter's name is part of the operation id and of the schema
      name (`/users/{param1}` gives `UsersParam1`). */
  lemma {:induction false} PathPartsText(path: string)
    ensures Concat(PathParts(path)) == Without(StripChars(path, {'/'}), Separators)
    ensures forall p :: p in PathParts(path) ==> p != [] && forall j :: 0 <= j < |p| ==> p[j] !in Separators
  {
    var pieces := SplitOn(StripChars(path, {'/'}), Separators);
    forall k | 0 <= k < |pieces|
      ensures '{' !in pieces[k]
    {
      assert forall j :: 0 <= j < |pieces[k]| ==> pieces[k][j] != '{';
    }
    KeptPartsDropsOnlyEmpty(pieces);
    SplitOnKeeps(StripChars(path, {'/'}), Separators);
    forall p | p in PathParts(path)
      ensures p != [] && forall j :: 0 <= j < |p| ==> p[j] !in Separators
    {
      var k :| 0 <= k < |pieces| && pieces[k] == p;
    }
  }

  /** The schema name is the operation id's path part, then the titled
      method, then `Body`. */
  lemma {:induction false} NamesAgree(m: string, path: string)
    ensures OperationId(m, path)[..|m|] == m
    ensures SchemaName(m, path) == OperationId(m, path)[|m|..] + Title(m) + "Body"
  {
    assert OperationId(m, path)[|m|..] == Titled(PathParts(path));
  }

  /** The tag is the text before the first `/` of the path without its
      outer slashes, or all of it; the `"api"` fallback is never taken. */
  lemma {:induction false} TagIsFirstSegment(path: string)
    ensures var t := StripChars(path, {'/'});
      && '/' !in Tag(path)
      && ('/' in t ==> Tag(path) == SplitFirst(t, '/').0)
      && ('/' !in t ==> Tag(path) == t)
  {
    var t := StripChars(path, {'/'});
    if '/' in t {
      var (a, b) := SplitFirst(t, '/');
      assert Split(t, '/')[0] == a;
    }
  }

  lemma {:induction false} TagOfRoot()
    ensures Tag("/") == ""
  {
    assert StripChars("/", {'/'}) == [];
  }

  // ---------------------------------------------------------------------
  // Parameters.

  /** The type of a query parameter, from its first recorded value. */
  function QueryParamType(values: seq<Option<string>>): string {
    if |values| > 0 && values[0].Some? && values[0].value != [] then
      var v := values[0].value;
      if Lower(v) == "true" || Lower(v) == "false" then "boolean"
      else if IsDigits(v) then "integer"
      else if MatchesNumber(v) then "number"
      else "string"
    else "string"
  }

  function PathParameter(name: string): Parameter {
    Parameter(name, InPath, true, "string", false)
  }

  function QueryParameters(params: map<string, seq<Option<string>>>): map<string, Parameter> {
    map k | k in params :: Parameter(k, InQuery, false, QueryParamType(params[k]), false)
  }

  /** A dynamic pattern with a `=` names a query parameter by the text
      before its first `=`; any other pattern gives none. */
  function DynamicParameter(pattern: string): Option<Parameter> {
    if '=' in pattern then Some(Parameter(SplitFirst(pattern, '=').0, InQuery, false, "string", true))
    else None
  }

  /** Only the first value decides, and the four types are the only ones. */
  lemma {:induction false} QueryParamTypeFirst(values: seq<Option<string>>)
    ensures QueryParamType(values) in {"boolean", "integer", "number", "string"}
    ensures values != [] ==> QueryParamType(values) == QueryParamType(values[..1])
    ensures values == [] || values[0] == None || values[0] == Some("") ==> QueryParamType(values) == "string"
  {
  }

  /** `true` and `false` in any letter case are booleans. */
  lemma {:induction false} BooleanValues(v: string)
    requires Lower(v) == "true" || Lower(v) == "false"
    ensures QueryParamType([Some(v)]) == "boolean"
  {
  }

  /** A natural number's decimal text is an integer, its negation a
      number, and a decimal fraction a number. */
  lemma {:induction false} NumericValues(n: nat, d: nat)
    ensures QueryParamType([Some(NatToString(n))]) == "integer"
    ensures QueryParamType([Some("-" + NatToString(n))]) == "number"
    ensures QueryParamType([Some(NatToString(n) + "." + NatToString(d))]) == "number"
  {
    NotBoolean(NatToString(n));
    NegativeValue(n);
    DecimalValue(n, d);
  }

  lemma {:induction false} NegativeValue(n: nat)
    ensures QueryParamType([Some("-" + NatToString(n))]) == "number"
  {
    var s := NatToString(n);
    var neg := "-" + s;
    assert neg[1..] == s;
    NotBoolean(neg);
    assert !IsDigits(neg) by { assert !IsDigit(neg[0]); }
  }

  lemma {:induction false} DecimalValue(n: nat, d: nat)
    ensures QueryParamType([Some(NatToString(n) + "." + NatToString(d))]) == "number"
  {
    var s, t := NatToString(n), NatToString(d);
    var frac := s + "." + t;
    assert frac == s + ['.'] + t;
    assert frac[0] == s[0] && frac[|s|] == '.';
    assert IsSignedDecimal(frac) by {
      assert '.' !in s by { assert forall k :: 0 <= k < |s| ==> IsDigit(s[k]); }
      SplitFirstOf(s, '.', t);
    }
    NotBoolean(frac);
    assert !IsDigits(frac) by { assert !IsDigit(frac[|s|]); }
  }

  /** A text that starts with a digit or `-` is not `true` or `false`. */
  lemma {:induction false} NotBoolean(v: string)
    requires v != [] && (IsDigit(v[0]) || v[0] == '-')
    ensures Lower(v) != "true" && Lower(v) != "false"
  {
    assert Lower(v)[0] == v[0];
  }

  /** Anything else that is not all digits and not a signed decimal is a
      string. */
  lemma {:induction false} OtherValues(v: string)
    requires v != [] && Lower(v) != "true" && Lower(v) != "false" && !IsDigits(v) && !MatchesNumber(v)
    ensures QueryParamType([Some(v)]) == "string"
  {
  }

  /** The analyzer records a templated query value for key `k` as the
      pattern `k=dynamic`; the generator reads `k` back from it. */
  lemma {:induction false} DynamicRoundTrip(k: string)
    requires '=' !in k
    ensures DynamicParameter(k + Analyzer.DynamicSuffix) == Some(Parameter(k, InQuery, false, "string", true))
  {
    assert k + Analyzer.DynamicSuffix == k + ['='] + "dynamic";
    SplitFirstOf(k, '=', "dynamic");
  }

  lemma {:induction false} DynamicNeedsEquals(pattern: string)
    ensures DynamicParameter(pattern).Some? <==> '=' in pattern
    ensures DynamicParameter(pattern).Some? ==>
      ('=' !in DynamicParameter(pattern).value.name && DynamicParameter(pattern).value.dynamic && !DynamicParameter(pattern).value.required)
  {
  }

  // ---------------------------------------------------------------------
  // Request bodies and schemas.

  /** `len(b.get('properties', {}))`. */
  function PropertyCount(b: BodyInput): nat {
    match b.properties
    case None => 0
    case Some(p) => |p|
  }

  /** Where `max(bodies, key=...)` lands: the first body with the most
      properties. */
  function BestIndex(bodies: seq<BodyInput>): (i: nat)
    requires bodies != []
    ensures i < |bodies|
    ensures forall j :: 0 <= j < |bodies| ==> PropertyCount(bodies[j]) <= PropertyCount(bodies[i])
    ensures forall j :: 0 <= j < i ==> PropertyCount(bodies[j]) < PropertyCount(bodies[i])
    decreases |bodies|
  {
    if |bodies| == 1 then 0
    else
      var n := |bodies| - 1;
      var i := BestIndex(bodies[..n]);
      assert forall j :: 0 <= j < n ==> bodies[..n][j] == bodies[j];
      if PropertyCount(bodies[n]) > PropertyCount(bodies[i]) then n else i
  }

  /** `_select_best_request_body`. */
  function BestBody(bodies: seq<BodyInput>): (r: Option<BodyInput>)
    ensures r.None? <==> bodies == []
    ensures r.Some? ==> r.value in bodies && forall b :: b in bodies ==> PropertyCount(b) <= PropertyCount(r.value)
  {
    if bodies == [] then None else Some(bodies[BestIndex(bodies)])
  }

  /** A body object with neither key is empty, and so false in Python. */
  predicate EmptyObject(b: BodyInput) {
    b.contentType.None? && b.properties.None?
  }

  function ContentTypeOf(b: BodyInput): string {
    match b.contentType
    case None => JsonContentType
    case Some(t) => t
  }

  /** `_add_schema`'s property loop: the type, `string` when missing, and
      the example only when there is one. */
  function PropertiesOf(b: BodyInput): map<string, PropertyInput> {
    match b.properties
    case None => map[]
    case Some(p) => p
  }

  function PropertySchema(info: PropertyInput): SchemaProperty {
    SchemaProperty(match info.typ case None => "string" case Some(t) => t, info.example)
  }

  function SchemaOf(b: BodyInput): map<string, SchemaProperty> {
    map k | k in PropertiesOf(b) :: PropertySchema(PropertiesOf(b)[k])
  }

  lemma {:induction false} SchemaOfProperties(b: BodyInput)
    ensures b.properties.None? ==> SchemaOf(b) == map[]
    ensures b.properties.Some? ==> SchemaOf(b).Keys == b.properties.value.Keys
    ensures b.properties.Some? ==> forall k :: k in b.properties.value ==>
      (&& SchemaOf(b)[k].example == b.properties.value[k].example
       && (b.properties.value[k].typ.Some? ==> SchemaOf(b)[k].typ == b.properties.value[k].typ.value)
       && (b.properties.value[k].typ.None? ==> SchemaOf(b)[k].typ == "string"))
  {
  }

  // ---------------------------------------------------------------------
  // What `generate_spec` does, one step at a time.

  /** `data.get('http_methods', ["GET"])`. */
  function Methods(d: EndpointInput): seq<string> {
    match d.httpMethods
    case None => [DefaultMethod]
    case Some(ms) => ms
  }

  predicate TakesBody(m: string) {
    m == "post" || m == "put" || m == "patch"
  }

  /** Skip rule: a key with a `{PARAM}` but no recorded template
      parameters is not published. */
  predicate Skipped(endpoint: string, d: EndpointInput) {
    Contains(endpoint, ParamToken) && |d.templateParams| == 0
  }

  /** The body documented for the lower-case method `m`, if any. */
  function BodyFor(m: string, d: EndpointInput): Option<BodyInput> {
    if TakesBody(m) && d.requestBodies != [] then
      var b := BestBody(d.requestBodies).value;
      if EmptyObject(b) then None else Some(b)
    else None
  }

  function PathParameters(names: seq<string>): (ps: seq<Parameter>)
    ensures |ps| == |names|
  {
    seq(|names|, i requires 0 <= i < |names| => PathParameter(names[i]))
  }

  /** The operation for the lower-case method `m` of an endpoint published
      under `path` with path parameters `pathParams`. */
  function OperationFor(endpoint: string, path: string, pathParams: seq<string>, m: string, d: EndpointInput): Operation {
    Operation(
      Upper(m) + " " + endpoint,
      OperationId(m, path),
      [Tag(path)],
      PathParameters(pathParams),
      QueryParameters(d.params),
      Kept(d.dynamicPatterns, DynamicParameter),
      match BodyFor(m, d)
      case None => None
      case Some(b) => Some(RequestBody(ContentTypeOf(b), SchemaName(m, path))))
  }

  /** `_add_schema`: the `schemas` object is created again when it was
      deleted, and the name is (re)bound. */
  function AddSchemaTo(s: Spec, name: string, b: BodyInput): Spec {
    Spec(s.paths, (if s.schemasListed then s.schemas else map[])[name := SchemaOf(b)], true)
  }

  /** Every operation found under a path keeps its value. */
  predicate Persists(s: Spec, t: Spec) {
    && s.paths.Keys <= t.paths.Keys
    && (s.schemasListed ==> t.schemasListed)
    && forall p, m :: p in s.paths && m in s.paths[p] ==> m in t.paths[p] && t.paths[p][m] == s.paths[p][m]
  }

  /** Every request-body reference names a schema that is listed. */
  predicate RefsResolve(s: Spec) {
    forall p, m :: p in s.paths && m in s.paths[p] && s.paths[p][m].requestBody.Some? ==>
      s.schemasListed && s.paths[p][m].requestBody.value.schemaName in s.schemas
  }

  function Lowered(ms: seq<string>): set<string> {
    set verb | verb in ms :: Lower(verb)
  }

  /** One method of one endpoint; the first definition of a lower-case
      method under a path wins. */
  function MethodStep(s: Spec, endpoint: string, path: string, pathParams: seq<string>, d: EndpointInput, verb: string): (r: Spec)
    requires path in s.paths
    ensures r.paths.Keys == s.paths.Keys
  {
    var m := Lower(verb);
    if m in s.paths[path] then s
    else
      var s1 := match BodyFor(m, d) case None => s case Some(b) => AddSchemaTo(s, SchemaName(m, path), b);
      s1.(paths := s1.paths[path := s1.paths[path][m := OperationFor(endpoint, path, pathParams, m, d)]])
  }

  /** The methods of one endpoint, in order. */
  function MethodsStep(s: Spec, endpoint: string, path: string, pathParams: seq<string>, d: EndpointInput, ms: seq<string>): (r: Spec)
    requires path in s.paths
    ensures r.paths.Keys == s.paths.Keys
    decreases |ms|
  {
    if ms == [] then s
    else MethodStep(MethodsStep(s, endpoint, path, pathParams, d, ms[..|ms| - 1]), endpoint, path, pathParams, d, ms[|ms| - 1])
  }

  /** One endpoint record. */
  function EndpointStep(s: Spec, endpoint: string, d: EndpointInput): Spec {
    if Skipped(endpoint, d) then s
    else
      var path := NormalizedPath(endpoint);
      MethodsStep(WithPath(s, path), endpoint, path, PathParams(endpoint), d, Methods(d))
  }

  /** The endpoint records in order (`backend_endpoints.items()`). */
  function Generated(s: Spec, entries: seq<(string, EndpointInput)>): Spec
    decreases |entries|
  {
    if entries == [] then s
    else
      var n := |entries| - 1;
      EndpointStep(Generated(s, entries[..n]), entries[n].0, entries[n].1)
  }

  // ---------------------------------------------------------------------
  // What each step keeps.

  lemma {:induction false} AddSchemaFacts(s: Spec, name: string, b: BodyInput)
    ensures var t := AddSchemaTo(s, name, b);
      t.paths == s.paths && t.schemasListed && t.schemas[name] == SchemaOf(b)
      && (s.schemasListed ==> s.schemas.Keys <= t.schemas.Keys)
      && (RefsResolve(s) ==> RefsResolve(t))
  {
  }

  lemma {:induction false} OperationBody(endpoint: string, path: string, pathParams: seq<string>, m: string, d: EndpointInput)
    ensures var op := OperationFor(endpoint, path, pathParams, m, d);
      (op.requestBody.Some? <==> BodyFor(m, d).Some?)
      && (op.requestBody.Some? ==> op.requestBody.value.schemaName == SchemaName(m, path))
  {
  }

  /** A step adds the method's operation when the method is new under the
      path, and changes no other operation. */
  lemma {:induction false} MethodStepFacts(s: Spec, endpoint: string, path: string, pathParams: seq<string>, d: EndpointInput, verb: string)
    requires path in s.paths
    ensures var r := MethodStep(s, endpoint, path, pathParams, d, verb);
      && r.paths.Keys == s.paths.Keys && Persists(s, r)
      && r.paths[path].Keys == s.paths[path].Keys + {Lower(verb)}
      && (forall p :: p in s.paths && p != path ==> r.paths[p] == s.paths[p])
      && (Lower(verb) !in s.paths[path] ==> r.paths[path][Lower(verb)] == OperationFor(endpoint, path, pathParams, Lower(verb), d))
      && (RefsResolve(s) ==> RefsResolve(r))
  {
    var m := Lower(verb);
    if m !in s.paths[path] {
      var op := OperationFor(endpoint, path, pathParams, m, d);
      OperationBody(endpoint, path, pathParams, m, d);
      var s1 := match BodyFor(m, d) case None => s case Some(b) => AddSchemaTo(s, SchemaName(m, path), b);
      if BodyFor(m, d).Some? {
        AddSchemaFacts(s, SchemaName(m, path), BodyFor(m, d).value);
      }
      assert s1.paths == s.paths;
      assert op.requestBody.Some? ==> s1.schemasListed && op.requestBody.value.schemaName in s1.schemas;
      assert RefsResolve(s) ==> RefsResolve(s1);
      InsertOperation(s1, path, m, op);
    }
  }

  lemma {:induction false} InsertOperation(s: Spec, path: string, m: string, op: Operation)
    requires path in s.paths && m !in s.paths[path]
    ensures var r := s.(paths := s.paths[path := s.paths[path][m := op]]);
      && r.paths.Keys == s.paths.Keys && Persists(s, r)
      && r.paths[path].Keys == s.paths[path].Keys + {m}
      && (forall p :: p in s.paths && p != path ==> r.paths[p] == s.paths[p])
      && r.paths[path][m] == op
      && (RefsResolve(s) && (op.requestBody.Some? ==> s.schemasListed && op.requestBody.value.schemaName in s.schemas) ==> RefsResolve(r))
  {
  }

  lemma {:induction false} MethodsStepKeys(s: Spec, endpoint: string, path: string, pathParams: seq<string>, d: EndpointInput, ms: seq<string>)
    requires path in s.paths
    ensures var r := MethodsStep(s, endpoint, path, pathParams, d, ms);
      && Persists(s, r)
      && r.paths[path].Keys == s.paths[path].Keys + Lowered(ms)
      && (forall p :: p in s.paths && p != path ==> r.paths[p] == s.paths[p])
  {
    MethodsStepPersists(s, endpoint, path, pathParams, d, ms);
    MethodsStepMethods(s, endpoint, path, pathParams, d, ms);
    MethodsStepOthers(s, endpoint, path, pathParams, d, ms);
  }

  lemma {:induction false} MethodsStepPersists(s: Spec, endpoint: string, path: string, pathParams: seq<string>, d: EndpointInput, ms: seq<string>)
    requires path in s.paths
    ensures Persists(s, MethodsStep(s, endpoint, path, pathParams, d, ms))
    decreases |ms|
  {
    if ms != [] {
      var pre, verb := ms[..|ms| - 1], ms[|ms| - 1];
      var r0 := MethodsStep(s, endpoint, path, pathParams, d, pre);
      MethodsStepPersists(s, endpoint, path, pathParams, d, pre);
      MethodStepFacts(r0, endpoint, path, pathParams, d, verb);
      PersistsTrans(s, r0, MethodStep(r0, endpoint, path, pathParams, d, verb));
    }
  }

  lemma {:induction false} MethodsStepMethods(s: Spec, endpoint: string, path: string, pathParams: seq<string>, d: EndpointInput, ms: seq<string>)
    requires path in s.paths
    ensures MethodsStep(s, endpoint, path, pathParams, d, ms).paths[path].Keys == s.paths[path].Keys + Lowered(ms)
    decreases |ms|
  {
    if ms != [] {
      var pre, verb := ms[..|ms| - 1], ms[|ms| - 1];
      var r0 := MethodsStep(s, endpoint, path, pathParams, d, pre);
      MethodsStepMethods(s, endpoint, path, pathParams, d, pre);
      MethodStepFacts(r0, endpoint, path, pathParams, d, verb);
      LoweredSnoc(ms);
    }
  }

  lemma {:induction false} MethodsStepOthers(s: Spec, endpoint: string, path: string, pathParams: seq<string>, d: EndpointInput, ms: seq<string>)
    requires path in s.paths
    ensures var r := MethodsStep(s, endpoint, path, pathParams, d, ms);
      forall p :: p in s.paths && p != path ==> r.paths[p] == s.paths[p]
    decreases |ms|
  {
    if ms != [] {
      var pre, verb := ms[..|ms| - 1], ms[|ms| - 1];
      var r0 := MethodsStep(s, endpoint, path, pathParams, d, pre);
      MethodsStepOthers(s, endpoint, path, pathParams, d, pre);
      MethodStepFacts(r0, endpoint, path, pathParams, d, verb);
    }
  }

  /** Every operation an endpoint adds under its path is the one built
      for that method. */
  lemma {:induction false} MethodsStepAdds(s: Spec, endpoint: string, path: string, pathParams: seq<string>, d: EndpointInput, ms: seq<string>)
    requires path in s.paths
    ensures var r := MethodsStep(s, endpoint, path, pathParams, d, ms);
      forall m :: m in r.paths[path] && m !in s.paths[path] ==> r.paths[path][m] == OperationFor(endpoint, path, pathParams, m, d)
    decreases |ms|
  {
    if ms != [] {
      var pre := ms[..|ms| - 1];
      MethodsStepAdds(s, endpoint, path, pathParams, d, pre);
      MethodsStepKeys(s, endpoint, path, pathParams, d, pre);
      MethodStepFacts(MethodsStep(s, endpoint, path, pathParams, d, pre), endpoint, path, pathParams, d, ms[|ms| - 1]);
    }
  }

  lemma {:induction false} MethodsStepRefs(s: Spec, endpoint: string, path: string, pathParams: seq<string>, d: EndpointInput, ms: seq<string>)
    requires path in s.paths && RefsResolve(s)
    ensures RefsResolve(MethodsStep(s, endpoint, path, pathParams, d, ms))
    decreases |ms|
  {
    if ms != [] {
      var pre := ms[..|ms| - 1];
      MethodsStepRefs(s, endpoint, path, pathParams, d, pre);
      MethodStepFacts(MethodsStep(s, endpoint, path, pathParams, d, pre), endpoint, path, pathParams, d, ms[|ms| - 1]);
    }
  }

  lemma {:induction false} LoweredSnoc(ms: seq<string>)
    requires ms != []
    ensures Lowered(ms) == Lowered(ms[..|ms| - 1]) + {Lower(ms[|ms| - 1])}
  {
    assert ms == ms[..|ms| - 1] + [ms[|ms| - 1]];
  }

  /** The path a record publishes, unless it is skipped. */
  function PublishedPath(entry: (string, EndpointInput)): Option<string> {
    if Skipped(entry.0, entry.1) then None else Some(NormalizedPath(entry.0))
  }

  /** The paths the records publish. */
  function PublishedPaths(entries: seq<(string, EndpointInput)>): set<string> {
    set p | p in Kept(entries, PublishedPath)
  }

  /** The end of `generate_spec`: an empty `schemas` object is deleted;
      when it is already gone, looking it up raises `KeyError` (false). */
  function Finish(s: Spec): (Spec, bool) {
    if !s.schemasListed then (s, false)
    else if s.schemas == map[] then (s.(schemasListed := false), true)
    else (s, true)
  }

  /** The spec with `path` present, added empty when new (:75-76). */
  function WithPath(s: Spec, path: string): Spec {
    if path in s.paths then s else s.(paths := s.paths[path := map[]])
  }

  lemma {:induction false} WithPathFacts(s: Spec, path: string)
    ensures WithPath(s, path).paths.Keys == s.paths.Keys + {path}
    ensures Persists(s, WithPath(s, path))
    ensures RefsResolve(s) ==> RefsResolve(WithPath(s, path))
    ensures path !in s.paths ==> WithPath(s, path).paths[path] == map[]
  {
  }

  /** What an endpoint does to the paths already there. */
  lemma {:induction false} EndpointStepFrame(s: Spec, endpoint: string, d: EndpointInput)
    ensures var r := EndpointStep(s, endpoint, d);
      && r.paths.Keys == s.paths.Keys + (if Skipped(endpoint, d) then {} else {NormalizedPath(endpoint)})
      && Persists(s, r)
      && (RefsResolve(s) ==> RefsResolve(r))
  {
    if !Skipped(endpoint, d) {
      var path := NormalizedPath(endpoint);
      var s0 := WithPath(s, path);
      WithPathFacts(s, path);
      MethodsStepKeys(s0, endpoint, path, PathParams(endpoint), d, Methods(d));
      if RefsResolve(s) {
        MethodsStepRefs(s0, endpoint, path, PathParams(endpoint), d, Methods(d));
      }
      PersistsTrans(s, s0, EndpointStep(s, endpoint, d));
    }
  }

  /** What an endpoint puts under its own path. */
  lemma {:induction false} EndpointStepAdds(s: Spec, endpoint: string, d: EndpointInput)
    requires !Skipped(endpoint, d)
    ensures var r := EndpointStep(s, endpoint, d);
      var path := NormalizedPath(endpoint);
      && path in r.paths
      && Lowered(Methods(d)) <= r.paths[path].Keys
      && forall m :: m in r.paths[path] && (path !in s.paths || m !in s.paths[path]) ==>
           r.paths[path][m] == OperationFor(endpoint, path, PathParams(endpoint), m, d)
  {
    var path := NormalizedPath(endpoint);
    var s0 := WithPath(s, path);
    WithPathFacts(s, path);
    MethodsStepKeys(s0, endpoint, path, PathParams(endpoint), d, Methods(d));
    MethodsStepAdds(s0, endpoint, path, PathParams(endpoint), d, Methods(d));
  }

  lemma {:induction false} PersistsTrans(a: Spec, b: Spec, c: Spec)
    requires Persists(a, b) && Persists(b, c)
    ensures Persists(a, c)
  {
  }

  /** The published paths are exactly the normalised keys of the records
      that are not skipped, and no operation is ever replaced. */
  lemma {:induction false} GeneratedPaths(s: Spec, entries: seq<(string, EndpointInput)>)
    ensures Generated(s, entries).paths.Keys == s.paths.Keys + PublishedPaths(entries)
    ensures Persists(s, Generated(s, entries))
    ensures RefsResolve(s) ==> RefsResolve(Generated(s, entries))
    decreases |entries|
  {
    if entries != [] {
      var n := |entries| - 1;
      GeneratedPaths(s, entries[..n]);
      var g := Generated(s, entries[..n]);
      EndpointStepFrame(g, entries[n].0, entries[n].1);
      PublishedStep(entries);
      PersistsTrans(s, g, Generated(s, entries));
    }
  }

  predicate Publishes(entry: (string, EndpointInput), p: string) {
    !Skipped(entry.0, entry.1) && NormalizedPath(entry.0) == p
  }

  /** A published path comes from some record that is not skipped. */
  lemma {:induction false} PublishedFrom(entries: seq<(string, EndpointInput)>, p: string)
    requires p in PublishedPaths(entries)
    ensures exists i :: 0 <= i < |entries| && Publishes(entries[i], p)
  {
    KeptFrom(entries, PublishedPath, p);
    var i :| 0 <= i < |entries| && PublishedPath(entries[i]) == Some(p);
    assert Publishes(entries[i], p);
  }

  /** Every record that is not skipped publishes its path. */
  lemma {:induction false} PublishedBy(entries: seq<(string, EndpointInput)>, i: nat, p: string)
    requires i < |entries| && Publishes(entries[i], p)
    ensures p in PublishedPaths(entries)
  {
    assert PublishedPath(entries[i]) == Some(p);
    KeptHas(entries, PublishedPath, i);
  }

  lemma {:induction false} PublishedPathsMeaning(entries: seq<(string, EndpointInput)>, p: string)
    ensures p in PublishedPaths(entries) <==> exists i :: 0 <= i < |entries| && Publishes(entries[i], p)
  {
    if p in PublishedPaths(entries) {
      PublishedFrom(entries, p);
    }
    if exists i :: 0 <= i < |entries| && Publishes(entries[i], p) {
      var i :| 0 <= i < |entries| && Publishes(entries[i], p);
      PublishedBy(entries, i, p);
    }
  }

  /** One more record adds its own path, unless it is skipped. */
  lemma {:induction false} PublishedStep(entries: seq<(string, EndpointInput)>)
    requires entries != []
    ensures var n := |entries| - 1;
      PublishedPaths(entries) == PublishedPaths(entries[..n])
        + (if Skipped(entries[n].0, entries[n].1) then {} else {NormalizedPath(entries[n].0)})
  {
    var n := |entries| - 1;
    KeptSnoc(entries, n, PublishedPath);
    assert entries[..n + 1] == entries;
  }

  /** Skip rule: a path is published only by a record that is not
      skipped; a path no such record normalises to stays out. */
  lemma {:induction false} SkipRule(s: Spec, entries: seq<(string, EndpointInput)>, p: string)
    requires p !in s.paths
    requires forall i :: 0 <= i < |entries| ==> !Publishes(entries[i], p)
    ensures p !in Generated(s, entries).paths
  {
    GeneratedPaths(s, entries);
    PublishedPathsMeaning(entries, p);
  }

  /** What the first `j` records published is still there at the end. */
  lemma {:induction false} PrefixPersists(s: Spec, entries: seq<(string, EndpointInput)>, j: nat)
    requires j <= |entries|
    ensures Persists(Generated(s, entries[..j]), Generated(s, entries))
    decreases |entries| - j
  {
    if j < |entries| {
      var n := |entries| - 1;
      var b := Generated(s, entries[..n]);
      var c := Generated(s, entries);
      assert c == EndpointStep(b, entries[n].0, entries[n].1);
      EndpointStepFrame(b, entries[n].0, entries[n].1);
      assert Persists(b, c);
      if j < n {
        var a := Generated(s, entries[..j]);
        PrefixPersists(s, entries[..n], j);
        assert entries[..n][..j] == entries[..j];
        assert Persists(a, b);
        PersistsTrans(a, b, c);
      } else {
        assert entries[..j] == entries[..n];
      }
    } else {
      assert entries[..j] == entries;
    }
  }

  /** Every method of every record that is not skipped has an operation
      under the record's normalised path. */
  lemma {:induction false} Coverage(s: Spec, entries: seq<(string, EndpointInput)>, i: nat)
    requires i < |entries| && !Skipped(entries[i].0, entries[i].1)
    ensures var path := NormalizedPath(entries[i].0);
      path in Generated(s, entries).paths && Lowered(Methods(entries[i].1)) <= Generated(s, entries).paths[path].Keys
  {
    var g := Generated(s, entries[..i]);
    assert entries[..i + 1][..i] == entries[..i];
    assert entries[..i + 1][i] == entries[i];
    assert Generated(s, entries[..i + 1]) == EndpointStep(g, entries[i].0, entries[i].1);
    EndpointStepAdds(g, entries[i].0, entries[i].1);
    PrefixPersists(s, entries, i + 1);
  }

  /** First method wins: the operation kept for a path and a lower-case
      method is the one built from the first record, and the first of its
      methods, that reaches them. */
  lemma {:induction false} FirstWins(s: Spec, entries: seq<(string, EndpointInput)>, i: nat, verb: string)
    requires i < |entries| && !Skipped(entries[i].0, entries[i].1) && verb in Methods(entries[i].1)
    requires var path := NormalizedPath(entries[i].0);
      var g := Generated(s, entries[..i]);
      path !in g.paths || Lower(verb) !in g.paths[path]
    ensures var path := NormalizedPath(entries[i].0);
      && path in Generated(s, entries).paths && Lower(verb) in Generated(s, entries).paths[path]
      && Generated(s, entries).paths[path][Lower(verb)]
           == OperationFor(entries[i].0, path, PathParams(entries[i].0), Lower(verb), entries[i].1)
  {
    var g := Generated(s, entries[..i]);
    var endpoint, d := entries[i].0, entries[i].1;
    var path, m := NormalizedPath(endpoint), Lower(verb);
    assert entries[..i + 1][..i] == entries[..i];
    assert entries[..i + 1][i] == entries[i];
    var h := Generated(s, entries[..i + 1]);
    assert h == EndpointStep(g, endpoint, d);
    EndpointStepAdds(g, endpoint, d);
    assert m in Lowered(Methods(d));
    assert h.paths[path][m] == OperationFor(endpoint, path, PathParams(endpoint), m, d);
    PrefixPersists(s, entries, i + 1);
  }

  /** A run from the initial document never raises, and every request
      body it documents refers to a listed schema. */
  lemma {:induction false} FirstRun(entries: seq<(string, EndpointInput)>)
    ensures Finish(Generated(Initial, entries)).1
    ensures RefsResolve(Finish(Generated(Initial, entries)).0)
  {
    GeneratedPaths(Initial, entries);
  }

  /** Deleting an empty `schemas` object loses no reference. */
  lemma {:induction false} FinishKeepsRefs(s: Spec)
    requires RefsResolve(s)
    ensures RefsResolve(Finish(s).0)
  {
  }

  // ---------------------------------------------------------------------
  // The analyzer's records as the generator reads them.

  /** The JSON spelling of a property type. */
  function TypeName(t: JsonType): string {
    match t
    case StringType => "string"
    case NumberType => "number"
    case BooleanType => "boolean"
    case ArrayType => "array"
    case ObjectType => "object"
  }

  function BodyInputOf(b: BodyStructure): BodyInput {
    BodyInput(Some(b.contentType), Some(map k | k in b.properties :: PropertyInput(Some(TypeName(b.properties[k].typ)), Some(b.properties[k].example))))
  }

  function EndpointInputOf(x: ExportedRecord): EndpointInput {
    EndpointInput(x.params, x.templateParams, x.dynamicPatterns, Some(x.httpMethods),
      seq(|x.requestBodies|, i requires 0 <= i < |x.requestBodies| => BodyInputOf(x.requestBodies[i])))
  }

  /** For a body the analyzer recorded, no default applies: the schema
      lists every property with its type and example, under the recorded
      content type. */
  lemma {:induction false} AnalyzerBodySchema(b: BodyStructure)
    ensures !EmptyObject(BodyInputOf(b)) && ContentTypeOf(BodyInputOf(b)) == b.contentType
    ensures SchemaOf(BodyInputOf(b)).Keys == b.properties.Keys
    ensures forall k :: k in b.properties ==>
      SchemaOf(BodyInputOf(b))[k] == SchemaProperty(TypeName(b.properties[k].typ), Some(b.properties[k].example))
  {
  }

  /** A serialised record lists its methods, `GET` when none was seen. */
  lemma {:induction false} AnalyzerMethods(r: Record, x: ExportedRecord)
    requires Exports(r, x)
    ensures r.httpMethods == {} ==> Methods(EndpointInputOf(x)) == [DefaultMethod]
    ensures r.httpMethods != {} ==> forall v :: v in Methods(EndpointInputOf(x)) <==> v in r.httpMethods
  {
    ExportedMethodDefault(r, x);
  }

  // ---------------------------------------------------------------------
  // The generator object.

  class OpenApiGenerator {
    var paths: map<string, map<string, Operation>>
    var schemas: map<string, map<string, SchemaProperty>>
    var schemasListed: bool

    ghost function State(): Spec
      reads this
    {
      Spec(paths, schemas, schemasListed)
    }

    constructor()
      ensures State() == Initial
    {
      paths := map[];
      schemas := map[];
      schemasListed := true;
    }

    /** `_add_schema`. */
    method AddSchema(name: string, body: BodyInput)
      modifies this
      ensures State() == AddSchemaTo(old(State()), name, body)
    {
      if !schemasListed {
        schemas := map[];
        schemasListed := true;
      }
      var properties := BuildProperties(body);
      schemas := schemas[name := properties];
    }

    /** One operation (`generate_spec`, :79-183). */
    method ProcessMethod(endpoint: string, path: string, pathParams: seq<string>, d: EndpointInput, verb: string)
      requires path in paths
      modifies this
      ensures State() == MethodStep(old(State()), endpoint, path, pathParams, d, verb)
    {
      var m := Lower(verb);
      if m in paths[path] {
        return;
      }
      var pathPs := BuildPathParameters(pathParams);
      var queryPs := BuildQueryParameters(d.params);
      var dynamicPs := BuildDynamicParameters(d.dynamicPatterns);
      var requestBody: Option<RequestBody> := None;
      if TakesBody(m) && d.requestBodies != [] {
        var best := BestBody(d.requestBodies).value;
        if !EmptyObject(best) {
          var name := SchemaName(m, path);
          AddSchema(name, best);
          requestBody := Some(RequestBody(ContentTypeOf(best), name));
        }
      }
      var op := Operation(Upper(m) + " " + endpoint, OperationId(m, path), [Tag(path)], pathPs, queryPs, dynamicPs, requestBody);
      assert op == OperationFor(endpoint, path, pathParams, m, d);
      paths := paths[path := paths[path][m := op]];
    }

    /** One endpoint record (`generate_spec`, :64-183). */
    method ProcessEndpoint(endpoint: string, d: EndpointInput)
      modifies this
      ensures State() == EndpointStep(old(State()), endpoint, d)
    {
      if Contains(endpoint, ParamToken) && |d.templateParams| == 0 {
        return;
      }
      var path, pathParams := NormalizePath(endpoint);
      if path !in paths {
        paths := paths[path := map[]];
      }
      ghost var s0 := State();
      var ms := Methods(d);
      for i := 0 to |ms|
        invariant State() == MethodsStep(s0, endpoint, path, pathParams, d, ms[..i])
      {
        assert ms[..i + 1][..i] == ms[..i];
        ProcessMethod(endpoint, path, pathParams, d, ms[i]);
      }
      assert ms[..|ms|] == ms;
    }

    /** `generate_spec` on the records of `backend_endpoints`; false when
        the final lookup of `schemas` raises `KeyError`. */
    method GenerateSpec(entries: seq<(string, EndpointInput)>) returns (ok: bool)
      modifies this
      ensures (State(), ok) == Finish(Generated(old(State()), entries))
    {
      ghost var s0 := State();
      for i := 0 to |entries|
        invariant State() == Generated(s0, entries[..i])
      {
        assert entries[..i + 1][..i] == entries[..i];
        ProcessEndpoint(entries[i].0, entries[i].1);
      }
      assert entries[..|entries|] == entries;
      if !schemasListed {
        return false;
      }
      if schemas == map[] {
        schemasListed := false;
      }
      return true;
    }
  }

  /** `_add_schema`'s loop over the body's properties. */
  method BuildProperties(body: BodyInput) returns (properties: map<string, SchemaProperty>)
    ensures properties == SchemaOf(body)
  {
    var source := PropertiesOf(body);
    properties := map[];
    var rest := source.Keys;
    while rest != {}
      invariant rest <= source.Keys
      invariant properties == map k | k in source.Keys - rest :: PropertySchema(source[k])
      decreases |rest|
    {
      var k :| k in rest;
      properties := properties[k := PropertySchema(source[k])];
      rest := rest - {k};
    }
    assert source.Keys - rest == source.Keys;
  }

  /** The path-parameter loop (:109-117). */
  method BuildPathParameters(names: seq<string>) returns (ps: seq<Parameter>)
    ensures ps == PathParameters(names)
  {
    ps := [];
    for i := 0 to |names|
      invariant ps == PathParameters(names[..i])
    {
      ps := ps + [PathParameter(names[i])];
    }
    assert names[..|names|] == names;
  }

  /** The query-parameter loop (:120-144). */
  method BuildQueryParameters(params: map<string, seq<Option<string>>>) returns (ps: map<string, Parameter>)
    ensures ps == QueryParameters(params)
  {
    ps := map[];
    var rest := params.Keys;
    while rest != {}
      invariant rest <= params.Keys
      invariant ps == map k | k in params.Keys - rest :: Parameter(k, InQuery, false, QueryParamType(params[k]), false)
      decreases |rest|
    {
      var k :| k in rest;
      var typ := InferType(params[k]);
      ps := ps[k := Parameter(k, InQuery, false, typ, false)];
      rest := rest - {k};
    }
    assert params.Keys - rest == params.Keys;
  }

  /** The type inference of :122-135, a loop over the values as the source
      has it; `QueryParamType` is the definition it computes and the one the
      lemmas reason about. */
  method InferType(values: seq<Option<string>>) returns (typ: string)
    ensures typ == QueryParamType(values)
  {
    typ := "string";
    if |values| > 0 && values[0].Some? && values[0].value != [] {
      var value := values[0].value;
      if Lower(value) == "true" || Lower(value) == "false" {
        typ := "boolean";
      } else if IsDigits(value) {
        typ := "integer";
      } else if MatchesNumber(value) {
        typ := "number";
      }
    }
  }

  /** The dynamic-parameter loop (:147-158). */
  method BuildDynamicParameters(patterns: seq<string>) returns (ps: seq<Parameter>)
    ensures ps == Kept(patterns, DynamicParameter)
  {
    ps := [];
    for i := 0 to |patterns|
      invariant ps == Kept(patterns[..i], DynamicParameter)
    {
      KeptSnoc(patterns, i, DynamicParameter);
      if '=' in patterns[i] {
        ps := ps + [Parameter(SplitFirst(patterns[i], '=').0, InQuery, false, "string", true)];
      }
    }
    assert patterns[..|patterns|] == patterns;
  }
}
