/** The per-endpoint record the analyzer accumulates, and the facts that are
    merged into it.  Every field except the request bodies is a set, so a
    fact observed twice changes nothing; bodies are kept in first-seen
    order, one per equivalence class. */
module Aggregator {
  import opened Text
  import opened Shapes

  datatype Record = Record(
    files: set<string>,
    params: map<string, set<Option<string>>>,
    templateParams: set<string>,
    dynamicPatterns: set<string>,
    httpMethods: set<string>,
    requestBodies: seq<BodyStructure>)

  /** The record a missing endpoint starts from. */
  const EmptyRecord := Record({}, map[], {}, {}, {}, [])

  /** One observation about an endpoint. */
  datatype Fact =
    | File(name: string)
    | StaticParam(key: string, value: Option<string>)
    | TemplateParam(expr: string)
    | DynamicParam(pattern: string)
    | HttpMethod(verb: string)
    | Body(body: BodyStructure)

  function ValuesOf(params: map<string, set<Option<string>>>, key: string): set<Option<string>> {
    if key in params then params[key] else {}
  }

  predicate HasEquivalent(bodies: seq<BodyStructure>, b: BodyStructure) {
    exists i :: 0 <= i < |bodies| && Equivalent(bodies[i], b)
  }

  /** Merging one fact into a record. */
  function Apply(r: Record, f: Fact): Record {
    match f
    case File(n) => r.(files := r.files + {n})
    case StaticParam(k, v) => r.(params := r.params[k := ValuesOf(r.params, k) + {v}])
    case TemplateParam(e) => r.(templateParams := r.templateParams + {e})
    case DynamicParam(p) => r.(dynamicPatterns := r.dynamicPatterns + {p})
    case HttpMethod(m) => r.(httpMethods := r.httpMethods + {m})
    case Body(b) => if HasEquivalent(r.requestBodies, b) then r else r.(requestBodies := r.requestBodies + [b])
  }

  /** Merging facts one after another. */
  function ApplyAll(r: Record, facts: seq<Fact>): Record
    decreases |facts|
  {
    if facts == [] then r else Apply(ApplyAll(r, facts[..|facts| - 1]), facts[|facts| - 1])
  }

  function Lookup(store: map<string, Record>, endpoint: string): Record {
    if endpoint in store then store[endpoint] else EmptyRecord
  }

  /** The store after one observation; the endpoint's record is created on
      first use. */
  function Observe(store: map<string, Record>, endpoint: string, f: Fact): map<string, Record> {
    store[endpoint := Apply(Lookup(store, endpoint), f)]
  }

  function ObserveAll(store: map<string, Record>, obs: seq<(string, Fact)>): map<string, Record>
    decreases |obs|
  {
    if obs == [] then store
    else
      var (e, f) := obs[|obs| - 1];
      Observe(ObserveAll(store, obs[..|obs| - 1]), e, f)
  }

  // ---------------------------------------------------------------------
  // A reference definition of what a run of set-valued facts produces.

  predicate SetFact(f: Fact) {
    !f.Body?
  }

  /** The record that results from adding every fact of `fs` to `r`. */
  function Summary(r: Record, fs: set<Fact>): Record {
    Record(
      r.files + Strings(fs, FileOf),
      MergeParams(r.params, fs),
      r.templateParams + Strings(fs, TemplateOf),
      r.dynamicPatterns + Strings(fs, PatternOf),
      r.httpMethods + Strings(fs, MethodOf),
      r.requestBodies)
  }

  function FileOf(f: Fact): Option<string> { if f.File? then Some(f.name) else None }
  function TemplateOf(f: Fact): Option<string> { if f.TemplateParam? then Some(f.expr) else None }
  function PatternOf(f: Fact): Option<string> { if f.DynamicParam? then Some(f.pattern) else None }
  function MethodOf(f: Fact): Option<string> { if f.HttpMethod? then Some(f.verb) else None }

  /** The strings one kind of fact in `fs` carries. */
  function Strings(fs: set<Fact>, sel: Fact -> Option<string>): set<string> {
    set f | f in fs && sel(f).Some? :: sel(f).value
  }

  lemma {:induction false} StringsAdd(fs: set<Fact>, f: Fact, sel: Fact -> Option<string>)
    ensures Strings(fs + {f}, sel) == Strings(fs, sel) + (if sel(f).Some? then {sel(f).value} else {})
  {
  }

  function MergeParams(params: map<string, set<Option<string>>>, fs: set<Fact>): map<string, set<Option<string>>> {
    map k | k in params.Keys + ParamKeys(fs) :: ValuesOf(params, k) + ParamValues(fs, k)
  }

  function ParamKeys(fs: set<Fact>): set<string> {
    set f | f in fs && f.StaticParam? :: f.key
  }

  function ParamValues(fs: set<Fact>, k: string): set<Option<string>> {
    set f | f in fs && f.StaticParam? && f.key == k :: f.value
  }

  function FactSet(facts: seq<Fact>): set<Fact> {
    set i | 0 <= i < |facts| :: facts[i]
  }

  lemma {:induction false} SummaryEmpty(r: Record)
    ensures Summary(r, {}) == r
  {
    StringsEmpty(FileOf);
    StringsEmpty(TemplateOf);
    StringsEmpty(PatternOf);
    StringsEmpty(MethodOf);
    MergeParamsEmpty(r.params);
  }

  lemma {:induction false} StringsEmpty(sel: Fact -> Option<string>)
    ensures Strings({}, sel) == {}
  {
  }

  lemma {:induction false} MergeParamsEmpty(params: map<string, set<Option<string>>>)
    ensures MergeParams(params, {}) == params
  {
    var s := MergeParams(params, {});
    assert ParamKeys({}) == {};
    assert forall k :: ParamValues({}, k) == {};
    assert s.Keys == params.Keys;
    assert forall k :: k in params ==> s[k] == params[k];
  }

  lemma {:induction false} ParamValuesAdd(fs: set<Fact>, f: Fact, k: string)
    requires f.StaticParam?
    ensures ParamValues(fs + {f}, k) == ParamValues(fs, k) + (if k == f.key then {f.value} else {})
  {
  }

  lemma {:induction false} MergeParamsAt(params: map<string, set<Option<string>>>, fs: set<Fact>, k: string)
    ensures k in MergeParams(params, fs) <==> k in params || k in ParamKeys(fs)
    ensures ValuesOf(MergeParams(params, fs), k) == ValuesOf(params, k) + ParamValues(fs, k)
  {
    if k !in params && k !in ParamKeys(fs) {
      assert ParamValues(fs, k) == {};
    }
  }

  lemma {:induction false} ParamsAdd(params: map<string, set<Option<string>>>, fs: set<Fact>, f: Fact)
    requires f.StaticParam?
    ensures var m := MergeParams(params, fs);
            MergeParams(params, fs + {f}) == m[f.key := ValuesOf(m, f.key) + {f.value}]
  {
    var m := MergeParams(params, fs);
    var a, b := MergeParams(params, fs + {f}), m[f.key := ValuesOf(m, f.key) + {f.value}];
    forall k
      ensures k in a <==> k in b
      ensures ValuesOf(a, k) == ValuesOf(b, k)
    {
      ParamsAddAt(params, fs, f, k);
    }
    ValuesOfExt(a, b);
  }

  lemma {:induction false} ParamsAddAt(params: map<string, set<Option<string>>>, fs: set<Fact>, f: Fact, k: string)
    requires f.StaticParam?
    ensures var m := MergeParams(params, fs);
      var a, b := MergeParams(params, fs + {f}), m[f.key := ValuesOf(m, f.key) + {f.value}];
      (k in a <==> k in b) && ValuesOf(a, k) == ValuesOf(b, k)
  {
    assert ParamKeys(fs + {f}) == ParamKeys(fs) + {f.key};
    MergeParamsAt(params, fs + {f}, k);
    MergeParamsAt(params, fs, k);
    ParamValuesAdd(fs, f, k);
  }

  lemma {:induction false} ValuesOfExt(a: map<string, set<Option<string>>>, b: map<string, set<Option<string>>>)
    requires forall k :: k in a <==> k in b
    requires forall k :: ValuesOf(a, k) == ValuesOf(b, k)
    ensures a == b
  {
    assert forall k :: k in a ==> a[k] == ValuesOf(a, k);
  }

  lemma {:induction false} ParamsKept(params: map<string, set<Option<string>>>, fs: set<Fact>, f: Fact)
    requires !f.StaticParam?
    ensures MergeParams(params, fs + {f}) == MergeParams(params, fs)
  {
    assert ParamKeys(fs + {f}) == ParamKeys(fs);
    assert forall k :: ParamValues(fs + {f}, k) == ParamValues(fs, k);
  }

  /** Adding one more fact to the summarized set is applying it. */
  lemma {:induction false} SummaryAdd(r: Record, fs: set<Fact>, f: Fact)
    requires SetFact(f)
    ensures Summary(r, fs + {f}) == Apply(Summary(r, fs), f)
  {
    StringsAdd(fs, f, FileOf);
    StringsAdd(fs, f, TemplateOf);
    StringsAdd(fs, f, PatternOf);
    StringsAdd(fs, f, MethodOf);
    if f.StaticParam? {
      ParamsAdd(r.params, fs, f);
    } else {
      ParamsKept(r.params, fs, f);
    }
  }

  /** Applying set-valued facts in sequence gives the summary of the set of
      facts: their order and their repetitions do not matter. */
  lemma {:induction false} ApplyAllIsSummary(r: Record, facts: seq<Fact>)
    requires forall i :: 0 <= i < |facts| ==> SetFact(facts[i])
    ensures ApplyAll(r, facts) == Summary(r, FactSet(facts))
    decreases |facts|
  {
    if facts == [] {
      assert FactSet(facts) == {};
      SummaryEmpty(r);
    } else {
      var init := facts[..|facts| - 1];
      ApplyAllIsSummary(r, init);
      assert FactSet(facts) == FactSet(init) + {facts[|facts| - 1]};
      SummaryAdd(r, FactSet(init), facts[|facts| - 1]);
    }
  }

  /** Two runs of set-valued facts with the same facts, in any order and
      with any repetition, give the same record. */
  lemma {:induction false} OrderIrrelevant(r: Record, facts1: seq<Fact>, facts2: seq<Fact>)
    requires forall i :: 0 <= i < |facts1| ==> SetFact(facts1[i])
    requires forall i :: 0 <= i < |facts2| ==> SetFact(facts2[i])
    requires FactSet(facts1) == FactSet(facts2)
    ensures ApplyAll(r, facts1) == ApplyAll(r, facts2)
  {
    ApplyAllIsSummary(r, facts1);
    ApplyAllIsSummary(r, facts2);
  }

  // ---------------------------------------------------------------------
  // Growth, idempotence and the body invariant.

  /** `r2` holds everything `r1` holds; bodies only get appended. */
  predicate Grows(r1: Record, r2: Record) {
    && r1.files <= r2.files
    && (forall k :: k in r1.params ==> k in r2.params && r1.params[k] <= r2.params[k])
    && r1.templateParams <= r2.templateParams
    && r1.dynamicPatterns <= r2.dynamicPatterns
    && r1.httpMethods <= r2.httpMethods
    && r1.requestBodies <= r2.requestBodies
  }

  /** No two stored bodies are equivalent. */
  predicate DistinctBodies(bodies: seq<BodyStructure>) {
    forall i, j :: 0 <= i < j < |bodies| ==> !Equivalent(bodies[i], bodies[j])
  }

  /** Merging never removes anything, repeating a fact is a no-op, and the
      bodies stay pairwise non-equivalent while every offered body is
      represented by an equivalent stored one. */
  lemma {:induction false} ApplyProperties(r: Record, f: Fact)
    ensures Grows(r, Apply(r, f))
    ensures Apply(Apply(r, f), f) == Apply(r, f)
    ensures DistinctBodies(r.requestBodies) ==> DistinctBodies(Apply(r, f).requestBodies)
    ensures f.Body? ==> HasEquivalent(Apply(r, f).requestBodies, f.body)
    ensures f.Body? && !HasEquivalent(r.requestBodies, f.body) ==> Apply(r, f).requestBodies == r.requestBodies + [f.body]
  {
    if f.Body? {
      var bodies := r.requestBodies;
      EquivalenceRelation(f.body, f.body, f.body);
      if !HasEquivalent(bodies, f.body) {
        var bodies' := bodies + [f.body];
        assert Equivalent(bodies'[|bodies|], f.body);
        if DistinctBodies(bodies) {
          forall i, j | 0 <= i < j < |bodies'|
            ensures !Equivalent(bodies'[i], bodies'[j])
          {
            if j == |bodies| {
              assert bodies'[i] == bodies[i];
            }
          }
        }
      }
    } else if f.StaticParam? {
      assert Apply(Apply(r, f), f).params == Apply(r, f).params;
    }
  }

  /** The record of an endpoint the store did not touch is unchanged, and a
      touched one has grown. */
  lemma {:induction false} ObserveAllGrows(store: map<string, Record>, obs: seq<(string, Fact)>, e: string)
    ensures e in store ==> e in ObserveAll(store, obs)
    ensures e in ObserveAll(store, obs) ==> Grows(Lookup(store, e), ObserveAll(store, obs)[e])
    ensures (forall i :: 0 <= i < |obs| ==> obs[i].0 != e) ==> Lookup(ObserveAll(store, obs), e) == Lookup(store, e)
    decreases |obs|
  {
    if obs != [] {
      var init := obs[..|obs| - 1];
      var (e', f) := obs[|obs| - 1];
      ObserveAllGrows(store, init, e);
      if e' == e {
        ApplyProperties(Lookup(ObserveAll(store, init), e), f);
      }
      assert forall i :: 0 <= i < |init| ==> init[i] == obs[i];
    }
  }

  /** Observations that all concern one endpoint. */
  function About(endpoint: string, facts: seq<Fact>): (obs: seq<(string, Fact)>)
    ensures |obs| == |facts|
    ensures forall i :: 0 <= i < |obs| ==> obs[i] == (endpoint, facts[i])
  {
    seq(|facts|, i requires 0 <= i < |facts| => (endpoint, facts[i]))
  }

  lemma {:induction false} AboutAppend(endpoint: string, a: seq<Fact>, b: seq<Fact>)
    ensures About(endpoint, a + b) == About(endpoint, a) + About(endpoint, b)
  {
  }

  /** Observing a run and then another is observing the two runs joined. */
  lemma {:induction false} ObserveAllAppend(store: map<string, Record>, a: seq<(string, Fact)>, b: seq<(string, Fact)>)
    ensures ObserveAll(store, a + b) == ObserveAll(ObserveAll(store, a), b)
    decreases |b|
  {
    if b == [] {
      assert a + b == a;
    } else {
      var init := b[..|b| - 1];
      assert (a + b)[..|a + b| - 1] == a + init;
      ObserveAllAppend(store, a, init);
    }
  }

  /** Observing facts about one endpoint in two runs is observing them
      in one. */
  lemma {:induction false} ObserveAboutAppend(store: map<string, Record>, endpoint: string, a: seq<Fact>, b: seq<Fact>)
    ensures ObserveAll(ObserveAll(store, About(endpoint, a)), About(endpoint, b)) == ObserveAll(store, About(endpoint, a + b))
  {
    AboutAppend(endpoint, a, b);
    ObserveAllAppend(store, About(endpoint, a), About(endpoint, b));
  }

  /** No endpoint holds two equivalent bodies. */
  predicate AllDistinct(store: map<string, Record>) {
    forall e :: e in store ==> DistinctBodies(store[e].requestBodies)
  }

  /** Every observation keeps the store free of equivalent bodies. */
  lemma {:induction false} ObserveAllDistinct(store: map<string, Record>, obs: seq<(string, Fact)>)
    requires AllDistinct(store)
    ensures AllDistinct(ObserveAll(store, obs))
    decreases |obs|
  {
    if obs != [] {
      var init := obs[..|obs| - 1];
      ObserveAllDistinct(store, init);
      var m := ObserveAll(store, init);
      var (e, f) := obs[|obs| - 1];
      ApplyProperties(Lookup(m, e), f);
    }
  }

  // ---------------------------------------------------------------------
  // Serialization.

  /** `xs` lists the elements of `s`, each once, in some order (Python's
      `list(a_set)`). */
  predicate Lists<T(!new)>(xs: seq<T>, s: set<T>) {
    && (forall x :: x in xs ==> x in s)
    && (forall x :: x in s ==> x in xs)
    && (forall i, j :: 0 <= i < j < |xs| ==> xs[i] != xs[j])
  }

  datatype ExportedRecord = ExportedRecord(
    files: seq<string>,
    params: map<string, seq<Option<string>>>,
    templateParams: seq<string>,
    dynamicPatterns: seq<string>,
    httpMethods: seq<string>,
    requestBodies: seq<BodyStructure>)

  const DefaultMethod := "GET"

  /** The methods that are exported: `GET` when none was observed. */
  function ExportedMethods(r: Record): set<string> {
    if r.httpMethods == {} then {DefaultMethod} else r.httpMethods
  }

  /** `x` is a serialization of `r`: every set becomes a list of its
      elements, an empty method set becomes `["GET"]`, bodies are kept. */
  predicate Exports(r: Record, x: ExportedRecord) {
    && Lists(x.files, r.files)
    && x.params.Keys == r.params.Keys
    && (forall k :: k in x.params ==> Lists(x.params[k], r.params[k]))
    && Lists(x.templateParams, r.templateParams)
    && Lists(x.dynamicPatterns, r.dynamicPatterns)
    && Lists(x.httpMethods, ExportedMethods(r))
    && x.requestBodies == r.requestBodies
  }

  lemma {:induction false} DistinctBound<T>(xs: seq<T>, s: set<T>)
    requires forall x :: x in xs ==> x in s
    requires forall i, j :: 0 <= i < j < |xs| ==> xs[i] != xs[j]
    ensures |xs| <= |s|
    decreases |xs|
  {
    if xs != [] {
      forall x | x in xs[1..]
        ensures x in s - {xs[0]}
      {
        var j :| 0 <= j < |xs[1..]| && xs[1..][j] == x;
        assert xs[j + 1] == x;
      }
      DistinctBound(xs[1..], s - {xs[0]});
    }
  }

  /** The method list of an export is `["GET"]` exactly when no method was
      observed, and otherwise lists the observed methods. */
  lemma {:induction false} ExportedMethodDefault(r: Record, x: ExportedRecord)
    requires Exports(r, x)
    ensures r.httpMethods == {} ==> x.httpMethods == [DefaultMethod]
    ensures r.httpMethods != {} ==> forall m :: m in x.httpMethods <==> m in r.httpMethods
  {
    if r.httpMethods == {} {
      var xs := x.httpMethods;
      assert ExportedMethods(r) == {DefaultMethod};
      DistinctBound(xs, {DefaultMethod});
      assert xs[0] in xs;
    }
  }
}
