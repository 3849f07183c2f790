/** The stand-alone query-parameter report: each collected URL literal is
    split into its endpoint and a dictionary of parameters, and the results
    are merged into one entry per endpoint holding the files that mention
    it and, per parameter, the set of values seen. */
module ParamsAnalyzer {
  import opened Text
  import opened QueryString

  /** `parse_query_params` as a function: `None` where the source raises
      because the URL has no `?`. */
  function QueryParams(url: string, decode: string -> string): Option<(string, map<string, Option<string>>)> {
    var u := Unquote(url);
    if '?' in u then
      var (base, query) := SplitFirst(u, '?');
      Some((base, LastWins(Pairs(query, decode))))
    else None
  }

  /** `parse_query_params`: one pair of quotes is dropped, the URL is cut at
      its first `?`, and every `&`-piece is assigned into the dictionary
      with its value decoded. */
  method ParseQueryParams(url: string, decode: string -> string) returns (r: Option<(string, map<string, Option<string>>)>)
    ensures r == QueryParams(url, decode)
  {
    var u := Unquote(url);
    if '?' !in u {
      return None;
    }
    var (base, query) := SplitFirst(u, '?');
    var params := ParamsDict(query, decode);
    r := Some((base, params));
  }

  /** The endpoint is the text before the first `?`, the rest is the query;
      a URL without `?` is rejected. */
  lemma {:induction false} QueryParamsSplit(url: string, decode: string -> string)
    ensures QueryParams(url, decode).None? <==> '?' !in Unquote(url)
    ensures QueryParams(url, decode).Some? ==>
      var base := QueryParams(url, decode).value.0;
      && '?' !in base
      && |base| < |Unquote(url)| && Unquote(url)[..|base|] == base && Unquote(url)[|base|] == '?'
      && QueryParams(url, decode).value.1 == LastWins(Pairs(Unquote(url)[|base| + 1..], decode))
  {
    var u := Unquote(url);
    if '?' in u {
      var (base, query) := SplitFirst(u, '?');
      assert u == base + ['?'] + query;
      assert u[..|base|] == base && u[|base| + 1..] == query;
    }
  }

  /** Exactly one pair of quotes is dropped: what is inside is split as
      it stands, even when it is quoted again. */
  lemma {:induction false} QuotedUrl(q: char, url: string, decode: string -> string)
    requires q in Quotes && '?' in url
    ensures var (base, query) := SplitFirst(url, '?');
      QueryParams([q] + url + [q], decode) == Some((base, LastWins(Pairs(query, decode))))
  {
    UnquotePair(q, url);
  }

  // ---------------------------------------------------------------------
  // The merge into `endpoint_map`.

  datatype Entry = Entry(files: set<string>, params: map<string, set<string>>)

  const NewEntry := Entry({}, map[])

  /** Python truthiness of a parameter value: neither `None` nor empty. */
  predicate Truthy(v: Option<string>) {
    v.Some? && v.value != ""
  }

  function SetAt(m: map<string, set<string>>, key: string): set<string> {
    if key in m then m[key] else {}
  }

  function EntryAt(m: map<string, Entry>, endpoint: string): Entry {
    if endpoint in m then m[endpoint] else NewEntry
  }

  /** Every parameter gets an entry; only a truthy value is added to it. */
  function MergeParams(into: map<string, set<string>>, found: map<string, Option<string>>): map<string, set<string>> {
    map k | k in into.Keys + found.Keys ::
      SetAt(into, k) + (if k in found && Truthy(found[k]) then {found[k].value} else {})
  }

  /** One parsed item merged into the map. */
  function MergeItem(m: map<string, Entry>, endpoint: string, file: string, found: map<string, Option<string>>): map<string, Entry> {
    var e := EntryAt(m, endpoint);
    m[endpoint := Entry(e.files + {file}, MergeParams(e.params, found))]
  }

  datatype Item = Item(url: string, file: string)

  /** The map after the items, in order; an item whose URL has no `?` is
      skipped. */
  function MergeAll(items: seq<Item>, decode: string -> string): map<string, Entry>
    decreases |items|
  {
    if items == [] then map[]
    else
      MergeNext(MergeAll(items[..|items| - 1], decode), items[|items| - 1], decode)
  }

  function MergeNext(m: map<string, Entry>, it: Item, decode: string -> string): map<string, Entry> {
    match QueryParams(it.url, decode)
    case None => m
    case Some((endpoint, found)) => MergeItem(m, endpoint, it.file, found)
  }

  function Without(found: map<string, Option<string>>, todo: set<string>): map<string, Option<string>> {
    map k | k in found && k !in todo :: found[k]
  }

  lemma {:induction false} MergeParamsNothing(into: map<string, set<string>>)
    ensures MergeParams(into, map[]) == into
  {
    assert forall k :: k in into ==> MergeParams(into, map[])[k] == into[k];
  }

  lemma {:induction false} AddParamsStep(into: map<string, set<string>>, found: map<string, Option<string>>, todo: set<string>, key: string)
    requires key in todo && todo <= found.Keys
    ensures var before := MergeParams(into, Without(found, todo));
      MergeParams(into, Without(found, todo - {key})) ==
        before[key := SetAt(before, key) + (if Truthy(found[key]) then {found[key].value} else {})]
  {
    var done := Without(found, todo);
    assert Without(found, todo - {key}) == done[key := found[key]];
    MergeParamsAdd(into, done, key, found[key]);
    assert key !in done;
    assert SetAt(MergeParams(into, done), key) == SetAt(into, key);
  }

  lemma {:induction false} MergeParamsAdd(into: map<string, set<string>>, done: map<string, Option<string>>, key: string, value: Option<string>)
    requires key !in done
    ensures MergeParams(into, done[key := value]) ==
      MergeParams(into, done)[key := SetAt(into, key) + (if Truthy(value) then {value.value} else {})]
  {
  }

  /** One parameter of the dictionary loop: its set is created when
      missing, and a truthy value is added to it. */
  method AddParam(params: map<string, set<string>>, key: string, value: Option<string>) returns (params': map<string, set<string>>)
    ensures params' == params[key := SetAt(params, key) + (if Truthy(value) then {value.value} else {})]
  {
    params' := params;
    if key !in params' {
      params' := params'[key := {}];
    } else {
      assert params' == params[key := params'[key]];
    }
    assert params' == params[key := SetAt(params, key)];
    if value.Some? && value.value != "" {
      params' := params'[key := params'[key] + {value.value}];
      assert params' == params[key := SetAt(params, key) + {value.value}];
    } else {
      assert SetAt(params, key) + {} == SetAt(params, key);
    }
  }

  /** The dictionary loop of the merge: every key of `found` gets its entry
      and truthy values are added. */
  method AddParams(into: map<string, set<string>>, found: map<string, Option<string>>) returns (params: map<string, set<string>>)
    ensures params == MergeParams(into, found)
  {
    params := into;
    var todo := found.Keys;
    assert Without(found, todo) == map[];
    MergeParamsNothing(into);
    while todo != {}
      invariant todo <= found.Keys
      invariant params == MergeParams(into, Without(found, todo))
      decreases |todo|
    {
      var key :| key in todo;
      AddParamsStep(into, found, todo, key);
      params := AddParam(params, key, found[key]);
      todo := todo - {key};
    }
    assert Without(found, todo) == found;
  }

  /** One parsed item: the endpoint's entry is created when missing, the
      file is added, then the parameters. */
  method AddItem(m: map<string, Entry>, endpoint: string, file: string, found: map<string, Option<string>>) returns (m': map<string, Entry>)
    ensures m' == MergeItem(m, endpoint, file, found)
  {
    m' := m;
    if endpoint !in m' {
      m' := m'[endpoint := NewEntry];
    }
    var entry := m'[endpoint];
    assert entry == EntryAt(m, endpoint);
    var params := AddParams(entry.params, found);
    m' := m'[endpoint := Entry(entry.files + {file}, params)];
  }

  /** The merge loop of `main`. */
  method BuildEndpointMap(items: seq<Item>, decode: string -> string) returns (endpointMap: map<string, Entry>)
    ensures endpointMap == MergeAll(items, decode)
  {
    endpointMap := map[];
    for i := 0 to |items|
      invariant endpointMap == MergeAll(items[..i], decode)
    {
      assert items[..i + 1][..i] == items[..i];
      assert MergeAll(items[..i + 1], decode) == MergeNext(endpointMap, items[i], decode);
      var parsed := ParseQueryParams(items[i].url, decode);
      if parsed.Some? {
        var (endpoint, found) := parsed.value;
        endpointMap := AddItem(endpointMap, endpoint, items[i].file, found);
      }
    }
    assert items[..|items|] == items;
  }

  // ---------------------------------------------------------------------
  // Properties of the merge.

  predicate EntryGrows(a: Entry, b: Entry) {
    && a.files <= b.files
    && forall k :: k in a.params ==> k in b.params && a.params[k] <= b.params[k]
  }

  /** Merging only adds: the file is recorded, every parameter key gets an
      entry, a value is added exactly when it is truthy, and other
      endpoints are untouched. */
  lemma {:induction false} MergeItemAdds(m: map<string, Entry>, endpoint: string, file: string, found: map<string, Option<string>>)
    ensures var m' := MergeItem(m, endpoint, file, found);
      && endpoint in m'
      && EntryGrows(EntryAt(m, endpoint), m'[endpoint])
      && m'[endpoint].files == EntryAt(m, endpoint).files + {file}
      && (forall k :: k in found ==> k in m'[endpoint].params)
      && (forall k, v :: k in found && found[k] == Some(v) && v != "" ==> v in m'[endpoint].params[k])
      && (forall k :: k in m'[endpoint].params ==>
            m'[endpoint].params[k] - SetAt(EntryAt(m, endpoint).params, k) <= (if k in found && Truthy(found[k]) then {found[k].value} else {}))
      && (forall e :: e != endpoint ==> EntryAt(m', e) == EntryAt(m, e))
  {
  }

  /** Merging the same item a second time changes nothing. */
  lemma {:induction false} MergeItemIdempotent(m: map<string, Entry>, endpoint: string, file: string, found: map<string, Option<string>>)
    ensures var m' := MergeItem(m, endpoint, file, found);
      MergeItem(m', endpoint, file, found) == m'
  {
    var m' := MergeItem(m, endpoint, file, found);
    var e := EntryAt(m, endpoint);
    var e' := EntryAt(m', endpoint);
    assert e' == Entry(e.files + {file}, MergeParams(e.params, found));
    MergeParamsTwice(e.params, found);
    assert e'.files + {file} == e'.files;
  }

  /** Merging the same found parameters twice is merging them once. */
  lemma {:induction false} MergeParamsTwice(into: map<string, set<string>>, found: map<string, Option<string>>)
    ensures var once := MergeParams(into, found);
      MergeParams(once, found) == once
  {
    var once := MergeParams(into, found);
    var twice := MergeParams(once, found);
    assert twice.Keys == once.Keys;
    forall k | k in once
      ensures twice[k] == once[k]
    {
      assert SetAt(once, k) == once[k];
    }
  }

  /** Along a run of items, no endpoint, file, key or value is ever lost. */
  lemma {:induction false} MergeAllGrows(items: seq<Item>, decode: string -> string, n: nat, endpoint: string)
    requires n <= |items|
    ensures endpoint in MergeAll(items[..n], decode) ==>
      endpoint in MergeAll(items, decode)
      && EntryGrows(MergeAll(items[..n], decode)[endpoint], MergeAll(items, decode)[endpoint])
    decreases |items|
  {
    if n < |items| {
      var init := items[..|items| - 1];
      assert init[..n] == items[..n];
      MergeAllGrows(init, decode, n, endpoint);
      var m := MergeAll(init, decode);
      match QueryParams(items[|items| - 1].url, decode)
      case None =>
      case Some((ep, found)) =>
        MergeItemAdds(m, ep, items[|items| - 1].file, found);
    } else {
      assert items[..n] == items;
    }
  }
}
