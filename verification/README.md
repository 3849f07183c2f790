# Site Request Analyzer — a verified model of its extraction core

The Site Request Analyzer scans the JavaScript bundles of a web application
for calls to its backend (`/api/...` URLs, template literals, `axios` and
`fetch` calls, request bodies written as object literals), merges what it
finds into one record per endpoint, and turns those records into an OpenAPI
3.0.0 document. This project models in Dafny the deterministic part of that
pipeline and proves what it promises:

- **Text** (`text.dfy`): the Python string operations the scripts rely on
  (`strip`, `split`, `find`, `str.title`, `isdigit`, the numeral pattern
  `^-?\d+(\.\d+)?$`), restricted to ASCII.
- **Templates** (`templates.dfy`): the `${...}` scanner behind the
  substitutions `\${[^}]+}` → `{PARAM}` / `TEMPLATE_VAR` / `{\1}` and the
  `findall` of interpolated expressions, written by hand as a scan into
  pieces.
- **Tokenizer** (`tokenizer.dfy`): the depth-aware comma tokenizer. The
  analyzer contains it three times, at api_query_analyzer.py:418-458,
  :769-809 and :817-854, with the same behaviour (the brace and bracket
  counters only change names), so it is modelled once as `Tokens` and
  computed by one loop, `Tokenize`.
- **Shapes** (`shapes.dfy`): the ordered value classifier, the one-level
  nested extractor, the body builder and the shape-only equivalence of two
  request bodies.
- **QueryString** (`querystring.dfy`): the `&`/`=` query splitters, in their
  list-valued form (`_parse_query_string`) and their last-wins dictionary
  form (`parse_query_params`, `extract_params_from_api_url`).
- **Aggregator** (`aggregator.dfy`): the per-endpoint record with its set
  fields and its list of bodies, the facts merged into it, and the export
  with sets turned into lists and `["GET"]` for no methods.
- **Analyzer** (`analyzer.dfy`): the analyzer's store
  (`results['backend_endpoints']`) as the class `ApiQueryAnalyzer`, whose
  methods record what each scanner finds: static query strings, template
  literals, API calls with a `params` object, request bodies; plus the
  parenthesis scan that finds the end of a call.
- **OpenApiPaths** and **OpenApi** (`openapi_paths.dfy`, `openapi.dfy`):
  path normalisation with numbered `{paramN}` placeholders, operation ids,
  tags, schema names, query-parameter types, best-body selection, schema
  construction, and the generator class `OpenApiGenerator` whose
  `GenerateSpec` runs the per-endpoint, per-method loop.
- **ParamsAnalyzer** (`params_analyzer.dfy`): `parse_query_params` and the
  per-endpoint merge of the parameter report.
- **JsAnalyzer** (`js_analyzer.dfy`): `extract_params_from_api_url`, the
  backend branch of `categorize_by_domain`, and `infer_base_static_url`.

Every loop of the source that updates variables is a Dafny method proved
against a function that specifies it; the properties are stated about those
functions as lemmas. Where the source mutates an object (the analyzer's
store, the generator's `spec`) the model is a class whose methods state
their new state as a function of the old one.

Where the code and its description disagree, the model follows the code:

- A nested object whose one-level extraction finds nothing keeps type
  `object` and its raw text as example, with no `properties`, because the
  type set at api_query_analyzer.py:509 is never reset before :527
  (`Shapes.ObjectKeepsType`).
- The query part of a template literal is filed under the raw text before
  the first `?`, not under the normalised key (api_query_analyzer.py:153-161),
  so `${...}` in that text stays as written.
- `_extract_tag` never returns its `"api"` fallback: `split` always gives at
  least one part, so the tag of `/` is the empty string (`OpenApi.TagOfRoot`).
- Python's `$` in `^-?\d+(\.\d+)?$` also matches just before a final newline;
  the numeral predicate `Text.MatchesNumber` keeps that.

## Model

| member | source | states |
|---|---|---|
| Tokenizer.Tokenize | api_query_analyzer.py:418-458 | the character loop (the same loop as :769-809 and :817-854) returns exactly `Tokens(s)`: the trimmed comma-separated pieces cut only outside strings at brace and bracket depth zero, with a non-blank remainder appended |
| Tokenizer.ReadChar | api_query_analyzer.py:427-454 | one character: the new quote and depth state is `Step` of the old one; a comma that `Splits` closes the trimmed token and empties the buffer; any other character is appended to the buffer; `in_string` holds exactly when a delimiter is remembered |
| Tokenizer.PiecesJoin | api_query_analyzer.py:426-454 | nothing is lost: joining the pieces with commas gives back the scanned text |
| Tokenizer.PiecesNoCut | api_query_analyzer.py:450-454 | when no comma of the text is at a splitting position, the whole text is one piece |
| Tokenizer.PiecesFirstCut | api_query_analyzer.py:450-452 | the first splitting comma ends the first piece, and scanning resumes after it from the state reached there |
| Tokenizer.UnterminatedString | api_query_analyzer.py:427-437 | inside a string whose delimiter never comes back, no comma splits: the rest is one piece (no exception, no cut) |
| Tokenizer.NegativeDepth | api_query_analyzer.py:441-450 | at negative brace depth with no `{` ahead, no comma splits |
| Tokenizer.NoComma | api_query_analyzer.py:450 | only commas split tokens |
| Tokenizer.TokensTrimmed | api_query_analyzer.py:451-458 | every token is trimmed; the tokens are the trimmed pieces in order, all but the last always kept, the last kept exactly when it is not blank |
| Tokenizer.AfterCons | api_query_analyzer.py:426-454 | the state after a prefix is the state after its tail started from the first character's step (the scan is a left fold) |
| Shapes.ClassifyValue | api_query_analyzer.py:471-530 | the value branch cascade computes `Classify(raw)` |
| Shapes.ClassificationOrder | api_query_analyzer.py:471-530 | on the trimmed value: boolean iff `true`/`false`; number iff numeric; array iff bracketed; object iff braced; string iff none of these; `items` present exactly for arrays; `properties` only for objects |
| Shapes.QuotedIsString | api_query_analyzer.py:520-522 | a quoted value is a string whose example has every leading and trailing quote removed |
| Shapes.QuotedNumeralIsString | api_query_analyzer.py:475-483 | a quoted numeral such as `'42'` is a string with example `42`, never a number |
| Shapes.IntegerRoundTrip | api_query_analyzer.py:478-481 | the decimal text of a natural number is classified as a number whose integer example is that number |
| Shapes.NegativeRoundTrip | api_query_analyzer.py:478-481 | `-` followed by the decimal text of `n` is a number with example `-n` |
| Shapes.ObjectKeepsType | api_query_analyzer.py:508-530 | a braced value is an object with its text as example; it has `properties` exactly when the nested extraction finds some |
| Shapes.EmptyArrayItems | api_query_analyzer.py:484-507 | an array with a blank interior has items of type string |
| Shapes.ExtractNestedObjectProperties | api_query_analyzer.py:811-887 | the nested extractor computes `NestedProperties`: one field per `key: value` token of the braced text, typed by the shorter cascade |
| Shapes.ExtractBodyProperties | api_query_analyzer.py:399-535 | the body builder computes `BodyProperties`: nothing for a text that is not braced, `emptyObject` for a blank interior, else one shape per `key: value` token |
| Shapes.KeyValueSplit | api_query_analyzer.py:462-469 | a token is split at its first colon into its cleaned key and its value |
| Shapes.QuotedKey | api_query_analyzer.py:466-468 | a key in one pair of matching quotes loses exactly that pair |
| Shapes.CollectKeys | api_query_analyzer.py:461-527 | a key is in the property map iff some token names it |
| Shapes.CollectLastWins | api_query_analyzer.py:527 | a repeated key keeps the value of its last token |
| Shapes.BodyAccepted | api_query_analyzer.py:399-416 | an accepted body is braced, has content type `application/json` and at least one property; a braced body with a blank interior is exactly `{emptyObject: object "{}"}` |
| Shapes.EquivalentIffSameTypes | api_query_analyzer.py:629-654 | two bodies are equivalent iff they have the same content type and the same map from property name to type; examples and nested properties are ignored |
| Shapes.EquivalenceRelation | api_query_analyzer.py:629-654 | the comparison is reflexive, symmetric and transitive |
| Aggregator.ApplyProperties | api_query_analyzer.py:543-552 | merging a fact only adds, merging it twice equals merging it once, keeps the stored bodies pairwise non-equivalent, leaves an equivalent of a new body stored, and appends a body only when none is equivalent |
| Aggregator.SummaryAdd | api_query_analyzer.py:87-94 | adding one more set-valued fact to a summary is merging that fact into the record |
| Aggregator.ApplyAllIsSummary | api_query_analyzer.py:18-27 | a run of set-valued facts yields the record determined by the set of those facts alone |
| Aggregator.OrderIrrelevant | api_query_analyzer.py:92-94 | two runs of set-valued facts with the same facts give the same record, in any order and with any repetition |
| Aggregator.ParamsAdd | api_query_analyzer.py:94 | a static value is added to the set of its key, the key being created when new |
| Aggregator.ObserveAllGrows | api_query_analyzer.py:18-28 | observations never remove an endpoint or anything from its record, and leave the records of other endpoints unchanged |
| Aggregator.ObserveAllDistinct | api_query_analyzer.py:543-552 | no sequence of observations puts two equivalent bodies in one record |
| Aggregator.ExportedMethodDefault | api_query_analyzer.py:53 | an export lists `GET` alone when no method was seen, and otherwise exactly the stored methods |
| Analyzer.ApiQueryAnalyzer.constructor | api_query_analyzer.py:16-28 | the store starts empty and without equivalent bodies |
| Analyzer.ApiQueryAnalyzer.AddBody | api_query_analyzer.py:543-552 | the store becomes the old one with the body observed: appended to its endpoint unless an equivalent one is stored |
| Analyzer.ApiQueryAnalyzer.AddFact | api_query_analyzer.py:87 | the store becomes the old one with the fact observed |
| Analyzer.ApiQueryAnalyzer.AddFacts | api_query_analyzer.py:143-148 | the store becomes the old one with the facts about the endpoint observed in order |
| Analyzer.ApiQueryAnalyzer.RecordStaticQuery | api_query_analyzer.py:83-94 | the endpoint's record gains the file and every `(key, value)` piece of the query as a static value, whatever order the keys are visited in; no other record changes |
| Analyzer.ApiQueryAnalyzer.AddGroups | api_query_analyzer.py:92-94 | the facts recorded are exactly the static values of the grouped query |
| Analyzer.ApiQueryAnalyzer.RecordTemplateLiteral | api_query_analyzer.py:123-186 | the store gains the path observations, then the query observations, of the template, and keeps its bodies distinct |
| Analyzer.ApiQueryAnalyzer.RecordTemplatePath | api_query_analyzer.py:123-148 | a template with an interpolation whose text before the first `${` starts with `/api/` adds, under its normalised key, the file, the method and its expressions in order |
| Analyzer.ApiQueryAnalyzer.RecordTemplateQuery | api_query_analyzer.py:150-186 | a template with `/api/` and `?` whose raw path starts with `/api/` adds under that raw path the file, then its query expressions and one fact per `=`-piece |
| Analyzer.ApiQueryAnalyzer.RecordQueryTemplate | api_query_analyzer.py:163-184 | the query's expressions, then the fact of each `&`-piece in order, are observed |
| Analyzer.ApiQueryAnalyzer.RecordQueryPiece | api_query_analyzer.py:176-184 | one piece adds its fact, if it has one |
| Analyzer.QueryTemplateFactCases | api_query_analyzer.py:176-184 | a piece gives nothing iff it has no `=`; a static value reads back as `key=value` with a `=`-free key and no placeholder; a dynamic marker is `key=dynamic` for the `=`-free text before the first `=` of a piece holding the placeholder |
| Analyzer.QueryPieceStatic | api_query_analyzer.py:177-180 | `key=value` without an interpolation is the static value `value` of `key` |
| Analyzer.QueryPieceDynamic | api_query_analyzer.py:181-184 | `key=value` with an interpolated value is the marker `key=dynamic` |
| Analyzer.ApiQueryAnalyzer.ProcessApiCall | api_query_analyzer.py:281-332 | when a `)` follows the call, the store gains the file, the method and one fact per pair of the params object in the call's text, the call ending where the corrected scan (see Findings) puts it; otherwise it is unchanged |
| Analyzer.FindCallEnd | api_query_analyzer.py:287-306 | the scan returns where the counter first closes inside the 2000-character window, else the next `)`, else nothing |
| Analyzer.FirstClose | api_query_analyzer.py:292-300 | the position found is the first in the window where the counter reaches zero on a `)`, and none is found only when there is no such position |
| Analyzer.NextClose | api_query_analyzer.py:304 | the position found is the first `)` from the start, and none is found only when there is none |
| Analyzer.ParamsObjectFactCases | api_query_analyzer.py:321-332 | a params value is static iff, trimmed, it is in matching quotes, and then its value has no quote at either end; otherwise the trimmed key is marked `key=dynamic` |
| Analyzer.ParamsObjectLiteral | api_query_analyzer.py:325-329 | a value in one pair of quotes around quote-free ends is the static value without the quotes |
| Analyzer.ApiQueryAnalyzer.ExtractBodyStructure | api_query_analyzer.py:395-555 | a text the body builder rejects leaves the store unchanged; an accepted body is observed under the endpoint |
| Analyzer.ApiQueryAnalyzer.PrepareForSerialization | api_query_analyzer.py:44-57 | one exported record per endpoint, each listing every element of each set exactly once, with `["GET"]` for no methods and the bodies unchanged |
| Analyzer.ExportRecord | api_query_analyzer.py:48-56 | the exported record lists each set of the record exactly, once per element |
| Analyzer.ExportParams | api_query_analyzer.py:50 | every parameter keeps its key and lists exactly its values |
| Analyzer.StaticQuerySummary | api_query_analyzer.py:87-94 | the file and the grouped values of a query give the record summarised by the file and the query's pieces |
| Analyzer.GroupFactsArePairFacts | api_query_analyzer.py:656-668 | grouping the pieces of a query by key loses no piece and adds none |
| Analyzer.IntendedFindsMatch | api_query_analyzer.py:287-306 | with the counter started at zero, a call `name(args)` with balanced arguments that fits in the window ends on its own `)` |
| Analyzer.AsWrittenMissesMatch | api_query_analyzer.py:288-300 | with the counter started at one, the scan never closes anywhere inside such a call, its own `)` included |
| Analyzer.NestedCallEnd | api_query_analyzer.py:288-306 | on `f(a(1))` the scan as written stops at the inner `)` (5), the corrected one at the call's own `)` (6) |
| Analyzer.EnclosedCallEnd | api_query_analyzer.py:288-306 | on `g(f(x))` from position 2 the scan as written runs past the call's own `)` (5) to the enclosing one (6), where its counter first reaches zero; the corrected one stops at 5 |
| Analyzer.CallPrefixDepth | api_query_analyzer.py:292-300 | the depth of a prefix of `name(args)` is zero in the name, at least one from `(` up to the last argument, and zero on the closing `)` |
| QueryString.PairOf | api_query_analyzer.py:660-666 | a piece without `=` is its own key with no value; otherwise the key is the `=`-free text before the first `=` and the value the decoded rest |
| QueryString.Pairs | api_query_analyzer.py:660 | one pair per `&`-piece, in order |
| QueryString.ParseQueryString | api_query_analyzer.py:656-668 | the loop computes the pieces grouped by key |
| QueryString.GroupedValues | api_query_analyzer.py:656-668 | a key is present iff some piece has it, and its values are those pieces' values in order |
| QueryString.ValuesForSnoc | api_query_analyzer.py:662-666 | one more piece appends its value to the values of its key only |
| QueryString.ParamsDict | api_params_analyzer.py:110-117 | the loop computes the last-wins dictionary of the pieces |
| QueryString.LastWinsIsLastValue | api_params_analyzer.py:110-117 | the dictionary has the keys of the grouped form, and each maps to the last of its grouped values |
| QueryString.LastWinsAt | js_analyzer.py:235-241 | a piece whose key no later piece repeats is the key's entry |
| QueryString.LastOfValues | api_params_analyzer.py:113-117 | the last piece with a key supplies the last of its values |
| ParamsAnalyzer.ParseQueryParams | api_params_analyzer.py:98-119 | the method computes `QueryParams`: nothing (the raised error) without a `?`, otherwise the base and the decoded last-wins parameters |
| ParamsAnalyzer.QueryParamsSplit | api_params_analyzer.py:100-117 | after one matching pair of quotes is dropped, no `?` gives the error; otherwise the base is the `?`-free text before the first `?` and the parameters are those of the rest |
| ParamsAnalyzer.QuotedUrl | api_params_analyzer.py:100-107 | one pair of quotes around a URL with `?` is removed before splitting |
| ParamsAnalyzer.AddParam | api_params_analyzer.py:142-146 | the key gets a set, created empty when new, and the value is added only when it is a non-empty string |
| ParamsAnalyzer.AddParams | api_params_analyzer.py:141-146 | the item's parameters are merged into the endpoint's |
| ParamsAnalyzer.AddItem | api_params_analyzer.py:130-146 | one item adds its file and merges its parameters into its endpoint's entry |
| ParamsAnalyzer.BuildEndpointMap | api_params_analyzer.py:128-148 | the loop merges every item, skipping those without `?` |
| ParamsAnalyzer.MergeItemAdds | api_params_analyzer.py:132-146 | the merge only grows the entry, adds the file, creates every key, and adds to a key at most its truthy value |
| ParamsAnalyzer.MergeItemIdempotent | api_params_analyzer.py:132-146 | merging the same item twice changes nothing |
| ParamsAnalyzer.MergeParamsTwice | api_params_analyzer.py:141-146 | merging the same parameters twice changes nothing |
| ParamsAnalyzer.MergeAllGrows | api_params_analyzer.py:128-148 | an entry present after some items is still present, grown, after all of them |
| JsAnalyzer.ExtractParamsFromApiUrl | js_analyzer.py:221-247 | the method computes `ExtractedUrl`: base and raw last-wins parameters with a `?`, else the unquoted URL and no parameters |
| JsAnalyzer.ExtractedUrlCases | js_analyzer.py:224-247 | without `?` the unquoted URL is returned with no parameters; with one, the base is `?`-free and the split is the parameter report's without decoding |
| JsAnalyzer.ExtractedQuoted | js_analyzer.py:224-245 | a quoted URL with a `?`-free base gives that base and the raw parameters of its query |
| JsAnalyzer.ClassifyString | js_analyzer.py:255-291 | one found string gives `CallOf`: nothing for an absolute URL, a split call for a quoted `/api` literal, the string itself for a `fetch` reference, nothing otherwise |
| JsAnalyzer.CategorizeFile | js_analyzer.py:254-291 | a file's calls are its strings' calls in order, entered only when there is at least one |
| JsAnalyzer.CategorizeBackend | js_analyzer.py:249-293 | the backend map has an entry for exactly the files with at least one backend call, holding those calls in order |
| JsAnalyzer.BackendAdd | js_analyzer.py:274-291 | one more file adds its calls when it has some and changes nothing else |
| JsAnalyzer.CallsOfFrom | js_analyzer.py:271-291 | every call comes from one of the file's strings, there are no more calls than strings, and there are none iff no string is a backend call |
| JsAnalyzer.ApiLiteralCall | js_analyzer.py:271-285 | a quoted `/api` literal with a query is stored with its `/api` path as endpoint and its raw query parameters |
| JsAnalyzer.LiteralCall | js_analyzer.py:278-285 | a trimmed relative `/api` literal is stored with the endpoint and parameters `extract_params_from_api_url` gives |
| JsAnalyzer.AbsoluteDropped | js_analyzer.py:259-270 | an absolute URL never becomes a backend call |
| JsAnalyzer.StaticDirSplit | js_analyzer.py:203-209 | the directory followed by one `/`-free last segment is the slash-stripped path |
| JsAnalyzer.StaticDirEmpty | js_analyzer.py:205-209 | the directory is empty iff the stripped path has one segment, and otherwise ends in `/` |
| JsAnalyzer.DirFromLast | js_analyzer.py:207 | all segments but the last, joined and followed by `/`, then the last segment, give the joined path |
| Templates.ScanRender | api_query_analyzer.py:137 | the `${...}` scan loses nothing: rendering its pieces back gives the text |
| Templates.CloseAtFirst | api_query_analyzer.py:137 | an interpolation ends at the first `}` |
| Templates.ScanMatch | api_query_analyzer.py:137 | `${e}` with a non-empty `}`-free `e` is one interpolation of `e`, and the scan continues after it |
| Templates.ScanInterpolation | api_query_analyzer.py:132-137 | `${`-free text before an interpolation stays as characters |
| Templates.SubstituteIgnoresExprs | api_query_analyzer.py:132 | substitution depends only on where the interpolations are, not on their expressions |
| Templates.NormalizeInterpolation | api_query_analyzer.py:132-140 | an interpolation becomes `{PARAM}` in the key and contributes its expression, in order |
| Templates.SharedKeyExample | api_query_analyzer.py:132-140 | `/api/users/${userId}` and `/api/users/${id}` share the key `/api/users/{PARAM}` and keep their own expressions |
| Templates.UsersPath | api_query_analyzer.py:132-140 | any expression under `/api/users/` gives the key `/api/users/{PARAM}` and that one expression |
| OpenApiPaths.NormalizePath | generate_openapi_spec.py:191-208 | the result has no `{PARAM}` and equals `NormalizedPath`; the parameter list equals `PathParams` |
| OpenApiPaths.NumberPlaceholders | generate_openapi_spec.py:196-201 | the loop leaves no `{PARAM}`, numbers the placeholders from one, and returns `param1` … `paramN` for the N placeholders |
| OpenApiPaths.AppendNames | generate_openapi_spec.py:204-206 | the loop appends each new name once |
| OpenApiPaths.NumberedStep | generate_openapi_spec.py:198-201 | one iteration keeps the final path and lowers the placeholder count by one |
| OpenApiPaths.NumberedClean | generate_openapi_spec.py:198 | the numbered path has no `{PARAM}` |
| OpenApiPaths.NumberedAt | generate_openapi_spec.py:199 | the first `{PARAM}` becomes `{paramk}` and the rest is numbered from k+1 |
| OpenApiPaths.NumberedTwo | generate_openapi_spec.py:196-201 | the first and second placeholders become `{param1}` and `{param2}` |
| OpenApiPaths.NumberedExample | generate_openapi_spec.py:196-201 | `/api/users/{PARAM}/posts/{PARAM}` becomes `/api/users/{param1}/posts/{param2}` |
| OpenApiPaths.AppendNewProps | generate_openapi_spec.py:204-206 | the initial names stay as a prefix, every found name is added, nothing else is, and no name appears twice |
| OpenApiPaths.ParamNamesDistinct | generate_openapi_spec.py:200 | the numbered names are pairwise distinct |
| OpenApiPaths.PathParamsShape | generate_openapi_spec.py:191-208 | the path parameters start with `param1` … `paramN`, contain every `{name}` of the path, nothing else, and no duplicate |
| OpenApiPaths.RebracedInterpolation | generate_openapi_spec.py:194 | `${e}` becomes `{e}` and the surrounding text is kept |
| OpenApi.SplitOn | generate_openapi_spec.py:220 | no part holds a separator |
| OpenApi.SplitOnKeeps | generate_openapi_spec.py:220 | the parts hold every other character, in order |
| OpenApi.KeptPartsDropsOnlyEmpty | generate_openapi_spec.py:221 | the filter drops only empty parts |
| OpenApi.PathPartsText | generate_openapi_spec.py:217-221 | the parts are non-empty, separator-free and spell the stripped path without its separators |
| OpenApi.NamesAgree | generate_openapi_spec.py:214-249 | the operation id is the method followed by the titled parts, and the schema name is the titled parts, the titled method and `Body` |
| OpenApi.TagIsFirstSegment | generate_openapi_spec.py:226-231 | the tag is slash-free: the text before the first `/` of the stripped path, or all of it |
| OpenApi.TagOfRoot | generate_openapi_spec.py:228-231 | the tag of `/` is the empty string |
| OpenApi.InferType | generate_openapi_spec.py:122-135 | the method computes `QueryParamType` |
| OpenApi.QueryParamTypeFirst | generate_openapi_spec.py:122-135 | the type is one of four, depends on the first value only, and is `string` for no value or an empty one |
| OpenApi.BooleanValues | generate_openapi_spec.py:128-129 | `true`/`false` in any case gives boolean |
| OpenApi.NumericValues | generate_openapi_spec.py:130-133 | digits give integer; a negative or decimal numeral gives number |
| OpenApi.OtherValues | generate_openapi_spec.py:125-135 | a non-empty value that is no boolean and no numeral gives string |
| OpenApi.DynamicRoundTrip | generate_openapi_spec.py:147-158 | the marker `key=dynamic` comes back as the optional string query parameter `key` |
| OpenApi.DynamicNeedsEquals | generate_openapi_spec.py:148-149 | a pattern gives a parameter iff it has a `=`, named by the `=`-free text before it |
| OpenApi.BuildPathParameters | generate_openapi_spec.py:109-117 | one required string path parameter per name, in order |
| OpenApi.BuildQueryParameters | generate_openapi_spec.py:120-144 | one optional query parameter per key, typed from its first value |
| OpenApi.BuildDynamicParameters | generate_openapi_spec.py:147-158 | one parameter per pattern with a `=`, in order |
| OpenApi.BestIndex | generate_openapi_spec.py:239 | the index of the first body with the most properties |
| OpenApi.BestBody | generate_openapi_spec.py:233-239 | nothing iff there are no bodies; otherwise a listed body with no fewer properties than any other |
| OpenApi.BuildProperties | generate_openapi_spec.py:256-263 | the loop computes `SchemaOf` |
| OpenApi.SchemaOfProperties | generate_openapi_spec.py:256-263 | the schema has exactly the body's property names, each typed as recorded or `string`, with the example copied only when present |
| OpenApi.AddSchemaFacts | generate_openapi_spec.py:251-268 | adding a schema lists it under its name, keeps the paths and the other schemas, and keeps every body reference resolvable |
| OpenApi.OperationBody | generate_openapi_spec.py:163-180 | an operation has a request body iff its method takes one and a non-empty best body exists, and then refers to its schema name |
| OpenApi.MethodStepFacts | generate_openapi_spec.py:79-183 | one method adds its lower-case name under the path, builds the operation when the name is new, touches no other path and keeps references resolvable |
| OpenApi.MethodsStepPersists | generate_openapi_spec.py:79-84 | no operation already defined is replaced |
| OpenApi.MethodsStepMethods | generate_openapi_spec.py:79-80 | the path's methods become the old ones plus the lower-cased listed ones |
| OpenApi.MethodsStepOthers | generate_openapi_spec.py:79-183 | other paths are untouched |
| OpenApi.MethodsStepAdds | generate_openapi_spec.py:86-183 | every method new under the path holds the operation built for it |
| OpenApi.MethodsStepRefs | generate_openapi_spec.py:163-183 | every request-body reference names a listed schema |
| OpenApi.WithPathFacts | generate_openapi_spec.py:75-76 | the path is added, empty when new, and nothing else changes |
| OpenApi.EndpointStepFrame | generate_openapi_spec.py:64-183 | one endpoint adds its normalised path unless skipped, replaces nothing and keeps references resolvable |
| OpenApi.EndpointStepAdds | generate_openapi_spec.py:69-183 | an endpoint not skipped has its path and all its lower-cased methods, each new one with its built operation |
| OpenApi.GeneratedPaths | generate_openapi_spec.py:64-76 | the paths are the old ones plus the published ones; nothing is replaced; references stay resolvable |
| OpenApi.PublishedPathsMeaning | generate_openapi_spec.py:64-72 | a path is published iff some endpoint not skipped normalises to it |
| OpenApi.PublishedStep | generate_openapi_spec.py:64-72 | one more endpoint publishes its normalised path unless skipped |
| OpenApi.SkipRule | generate_openapi_spec.py:66-67 | a path no endpoint publishes does not appear |
| OpenApi.PrefixPersists | generate_openapi_spec.py:64-183 | what the first endpoints define survives the rest of the loop |
| OpenApi.Coverage | generate_openapi_spec.py:64-84 | every endpoint not skipped has its path and all its methods in the result |
| OpenApi.FirstWins | generate_openapi_spec.py:82-84 | the operation kept for a method under a path is the one built from the first endpoint that defines it |
| OpenApi.FirstRun | generate_openapi_spec.py:185-189 | a first run succeeds and leaves every reference resolvable |
| OpenApi.FinishKeepsRefs | generate_openapi_spec.py:185-187 | deleting an empty schema list keeps every reference resolvable |
| OpenApi.AnalyzerBodySchema | generate_openapi_spec.py:251-268 | an exported analyzer body gives a schema with its property names, each with its type name and example |
| OpenApi.AnalyzerMethods | generate_openapi_spec.py:79 | an exported record gives `GET` alone when no method was seen, else exactly its methods |
| OpenApi.OpenApiGenerator.constructor | generate_openapi_spec.py:16-43 | no paths and an empty listed schema object |
| OpenApi.OpenApiGenerator.AddSchema | generate_openapi_spec.py:251-268 | the state becomes `AddSchemaTo` of the old one |
| OpenApi.OpenApiGenerator.ProcessMethod | generate_openapi_spec.py:79-183 | the state becomes `MethodStep` of the old one |
| OpenApi.OpenApiGenerator.ProcessEndpoint | generate_openapi_spec.py:64-183 | the state becomes `EndpointStep` of the old one |
| OpenApi.OpenApiGenerator.GenerateSpec | generate_openapi_spec.py:55-189 | the state and result are `Finish` of the endpoints processed in order |

## Left out

- File enumeration, file reading and writing, JSON loading and saving, and
  console output: `analyze_all_files`, `analyze_file`, `export_results`,
  `print_results`, `load_api_data`, `save_spec`, the `main` functions and
  `extract_api_endpoints_with_params`, whose all-pairs pairing of URLs and
  params objects is a heuristic, not behaviour.
- The regular-expression scanners (`_find_static_query_params` matching,
  `_find_template_literal_params` matching, `_find_search_params_usage`,
  `_find_axios_fetch_params`, `_find_variable_definition`,
  `_extract_nested_property`, the params-object and pair patterns at
  api_query_analyzer.py:315-319, the request-body context sniffing at
  :334-393, the method sniffing at :112-121, `API_PATTERNS`): the model
  takes what they match as inputs (the endpoint, the template text, the
  method, the call's start, the params pairs as a function of the call
  text, the body text).
- Analyzer.ApiQueryAnalyzer.RecordStaticQuery: takes its endpoint as an
  input; as written, the source files every static query under the first
  `/api/...?` literal of the whole file (the second search at :82 is not
  tied to the match being processed), which belongs to the scanner.
- Percent-decoding (`unquote`) is a function parameter; `urlparse` is
  replaced by its scheme, network location and path given as inputs.
- The domain branch of `categorize_by_domain` (absolute URLs grouped by
  network location): only the backend branch is modelled.
- The `except` branch storing `raw_query` at js_analyzer.py:242-244 cannot
  be reached by the code it guards and is not modelled.
- Floating point: a decimal number example keeps its decimal text.
- Dictionary order: properties, parameters and schemas are Dafny maps, so
  the order of keys in the generated document is not modelled, nor is the
  order `list(set)` gives (the export only promises each element once).
- `str.title`, `str.lower`, `str.upper` and `isdigit` are modelled on ASCII
  letters and digits only.
- The constant parts of an operation (its description and the `200`, `400`,
  `401` responses), of the document (`info`, `servers`, the bearer
  security scheme) and of a schema (`type: object`) are not modelled; the
  `responses` field of an analyzer record is never filled and is left out.
- A body whose tokens hold no `key: value` pair adds nothing (as in the
  source); a `print` inside an `except` block is not modelled.
- OpenApi.OpenApiGenerator.GenerateSpec: the reload of the input file when
  no data is loaded is left out; the endpoints are passed in.
- Two paths whose schema names coincide share one schema entry, the later
  body replacing the earlier one, as in the source.
- Analyzer.ApiQueryAnalyzer.ProcessApiCall: the store uses the corrected
  scan, whose counter starts at 0, and not the counter starting at 1 that
  api_query_analyzer.py:288 has (see Findings). Where the two scans end a
  call at different places, the params object read from the call's text can
  differ from the source's. The as-written scan is `Analyzer.FindCallEnd`
  with `AsWrittenInit`, and `Analyzer.NestedCallEnd` and
  `Analyzer.EnclosedCallEnd` show where it ends.

## Findings

| source | as written | input that shows it | evidently intended | confidence | as-written member | corrected member |
|---|---|---|---|---|---|---|
| api_query_analyzer.py:288-306 | the nesting counter starts at 1 although the scan begins at the call's name and so also counts the call's own `(`. The end is the first `)` in the window where the counter reaches 0, which is never inside the call itself; when there is none, the end is the first `)` | `f(a(1))` at position 0: the scan ends at 5, the inner `)`, so the call text is cut before its own closing `)`; `g(f(x))` from position 2: the scan ends at 6, the enclosing call's `)` | the counter starts at 0 and the scan ends at 6, the call's own `)` | not executed | Analyzer.AsWrittenMissesMatch | Analyzer.IntendedFindsMatch |
