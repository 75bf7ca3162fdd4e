/**
  The normalised benchmark record and the expansion of one specification
  document into one benchmark per variant (svcb/svcb/benchmark.py).
 */
module BenchmarkModel {
  import opened Results
  import opened Documents
  import opened Sequences

  /** `pat` occurs in `s` at index `i`. */
  predicate OccursAt(s: string, pat: string, i: int)
  {
    0 <= i && i + |pat| <= |s| && s[i..i + |pat|] == pat
  }

  /** Python's `s.find(pat, start)`: the first index at or after `start` where `pat` occurs, or -1. */
  function FindFrom(s: string, pat: string, start: nat): (r: int)
    requires start <= |s|
    ensures r == -1 || (start <= r && OccursAt(s, pat, r))
    ensures r == -1 ==> forall i :: start <= i ==> !OccursAt(s, pat, i)
    ensures r != -1 ==> forall i :: start <= i < r ==> !OccursAt(s, pat, i)
    decreases |s| - start
  {
    if start + |pat| > |s| then -1
    else if s[start..start + |pat|] == pat then start
    else FindFrom(s, pat, start + 1)
  }

  /** Python's `s.find(pat)`. */
  function Find(s: string, pat: string): int
  {
    FindFrom(s, pat, 0)
  }

  /**
    The data a Benchmark holds once its constructor has added the implicit empty
    fields: `comments`, `defines` and `dependencies` are always present, a missing
    one defaults to "", [] and {}, a present one and every other key keep their value.
   */
  function WithDefaults(d: Dict): (r: Dict)
    ensures HasKey(r, "comments") && HasKey(r, "defines") && HasKey(r, "dependencies")
    ensures Get(r, "comments") == if HasKey(d, "comments") then Get(d, "comments") else Some(Str(""))
    ensures Get(r, "defines") == if HasKey(d, "defines") then Get(d, "defines") else Some(List([]))
    ensures Get(r, "dependencies") == if HasKey(d, "dependencies") then Get(d, "dependencies") else Some(Mapping([]))
    ensures forall k :: k != "comments" && k != "defines" && k != "dependencies" ==> Get(r, k) == Get(d, k)
  {
    var withComments := if HasKey(d, "comments") then d else Put(d, "comments", Str(""));
    var withDefines := if HasKey(withComments, "defines") then withComments else Put(withComments, "defines", List([]));
    if HasKey(withDefines, "dependencies") then withDefines else Put(withDefines, "dependencies", Mapping([]))
  }

  /** The defaults are appended after the keys already present, which keep their order. */
  lemma WithDefaultsKeepsOrder(d: Dict)
    ensures Keys(d) <= Keys(WithDefaults(d))
  {
    var withComments := if HasKey(d, "comments") then d else Put(d, "comments", Str(""));
    var withDefines := if HasKey(withComments, "defines") then withComments else Put(withComments, "defines", List([]));
    PutKeys(d, "comments", Str(""));
    PutKeys(withComments, "defines", List([]));
    PutKeys(withDefines, "dependencies", Mapping([]));
  }

  /** One concrete benchmark: a read-only view over its own copy of a specification without variants. */
  class Benchmark {
    const data: Dict

    /** Stores `d` and adds the implicit empty fields to it. */
    constructor (d: Dict)
      requires !HasKey(d, "variants")
      ensures data == WithDefaults(d)
    {
      var normalised := d;
      if !HasKey(normalised, "comments") {
        normalised := Put(normalised, "comments", Str(""));
      }
      if !HasKey(normalised, "defines") {
        normalised := Put(normalised, "defines", List([]));
      }
      if !HasKey(normalised, "dependencies") {
        normalised := Put(normalised, "dependencies", Mapping([]));
      }
      data := normalised;
    }

    function Name(): Option<Value> { Get(data, "name") }
    function Sources(): Option<Value> { Get(data, "sources") }
    function Architectures(): Option<Value> { Get(data, "architectures") }
    function Defines(): Option<Value> { Get(data, "defines") }
    function Language(): Option<Value> { Get(data, "language") }
    function Dependencies(): Option<Value> { Get(data, "dependencies") }

    /** The language is a C++ dialect: it contains the marker "++". */
    predicate IsLanguageCXX()
      requires IsText(Language())
    {
      Find(Language().value.s, "++") != -1
    }

    predicate IsLanguageC()
      requires IsText(Language())
    {
      !IsLanguageCXX()
    }
  }

  /**
    The two language families are exclusive and exhaustive, and the C++ family is
    exactly the languages with two consecutive '+' characters.
   */
  lemma LanguageFamilies(b: Benchmark)
    requires IsText(b.Language())
    ensures b.IsLanguageC() != b.IsLanguageCXX()
    ensures b.IsLanguageCXX() <==>
      exists i :: 0 <= i < |b.Language().value.s| - 1 && b.Language().value.s[i] == '+' && b.Language().value.s[i + 1] == '+'
  {
    var lang := b.Language().value.s;
    if b.IsLanguageCXX() {
      var i := Find(lang, "++");
      assert lang[i..i + 2] == "++";
      assert lang[i] == lang[i..i + 2][0] && lang[i + 1] == lang[i..i + 2][1];
    }
    if exists i :: 0 <= i < |lang| - 1 && lang[i] == '+' && lang[i + 1] == '+' {
      var i :| 0 <= i < |lang| - 1 && lang[i] == '+' && lang[i + 1] == '+';
      assert lang[i..i + 2] == "++";
      assert OccursAt(lang, "++", i);
    }
  }

  /** What expanding a specification demands of it: the shapes the schema guarantees. */
  predicate Expandable(spec: Dict)
  {
    HasKey(spec, "variants") ==>
      && IsMapping(Get(spec, "variants"))
      && (forall i :: 0 <= i < |Get(spec, "variants").value.entries| ==> Get(spec, "variants").value.entries[i].1.List?)
      && IsText(Get(spec, "name"))
      && (HasKey(spec, "defines") ==> IsList(Get(spec, "defines")))
  }

  /** The variants mapping, in iteration order. */
  function Variants(spec: Dict): seq<(string, Value)>
    requires Expandable(spec) && HasKey(spec, "variants")
  {
    Get(spec, "variants").value.entries
  }

  /** The specification-level defines every variant starts from. */
  function GlobalDefines(spec: Dict): seq<Value>
    requires Expandable(spec) && HasKey(spec, "variants")
  {
    if HasKey(spec, "defines") then Get(spec, "defines").value.items else []
  }

  /**
    The specification of one variant, before the Benchmark constructor adds its
    defaults: no `variants`, the name `{name}_{variant}`, the global defines followed
    by the variant's own, and every other key as in the whole specification.
   */
  function VariantSpec(spec: Dict, variantName: string, extraDefines: seq<Value>): (r: Dict)
    requires Expandable(spec) && HasKey(spec, "variants")
    ensures !HasKey(r, "variants")
    ensures Get(r, "name") == Some(Str(Get(spec, "name").value.s + "_" + variantName))
    ensures Get(r, "defines") == Some(List(GlobalDefines(spec) + extraDefines))
    ensures forall k :: k != "variants" && k != "name" && k != "defines" ==> Get(r, k) == Get(spec, k)
  {
    var withoutVariants := Delete(spec, "variants");
    var withDefines := Put(withoutVariants, "defines", List(GlobalDefines(spec) + extraDefines));
    Put(withDefines, "name", Str(Get(spec, "name").value.s + "_" + variantName))
  }

  /** The data of the Benchmark built from one variant. */
  function VariantData(spec: Dict, variantName: string, extraDefines: seq<Value>): Dict
    requires Expandable(spec) && HasKey(spec, "variants")
  {
    WithDefaults(VariantSpec(spec, variantName, extraDefines))
  }

  /** The data of the benchmarks built from the variants `vs`, in iteration order. */
  function ExpandVariants(spec: Dict, vs: seq<(string, Value)>): seq<Dict>
    requires Expandable(spec) && HasKey(spec, "variants")
    requires forall i :: 0 <= i < |vs| ==> vs[i].1.List?
  {
    Map((v: (string, Value)) requires Expandable(spec) && HasKey(spec, "variants") && v.1.List? =>
          VariantData(spec, v.0, v.1.items), vs)
  }

  /** The i-th variant gives the i-th benchmark. */
  lemma ExpandVariantsAt(spec: Dict, vs: seq<(string, Value)>, i: nat)
    requires Expandable(spec) && HasKey(spec, "variants")
    requires forall i :: 0 <= i < |vs| ==> vs[i].1.List?
    ensures |ExpandVariants(spec, vs)| == |vs|
    ensures i < |vs| ==> ExpandVariants(spec, vs)[i] == VariantData(spec, vs[i].0, vs[i].1.items)
  {
    MapAt((v: (string, Value)) requires Expandable(spec) && HasKey(spec, "variants") && v.1.List? =>
          VariantData(spec, v.0, v.1.items), vs, i);
  }

  /** Expanding one more variant appends its benchmark. */
  lemma ExpandVariantsSnoc(spec: Dict, vs: seq<(string, Value)>, i: nat)
    requires Expandable(spec) && HasKey(spec, "variants")
    requires forall i :: 0 <= i < |vs| ==> vs[i].1.List?
    requires i < |vs|
    ensures ExpandVariants(spec, vs[..i + 1]) == ExpandVariants(spec, vs[..i]) + [VariantData(spec, vs[i].0, vs[i].1.items)]
  {
    assert vs[..i + 1][..i] == vs[..i];
  }

  /** The data of the benchmarks a specification expands to, in order. */
  function ExpandedData(spec: Dict): seq<Dict>
    requires Expandable(spec)
  {
    if HasKey(spec, "variants") then ExpandVariants(spec, Variants(spec)) else [WithDefaults(spec)]
  }

  /** Without variants, expansion yields exactly the specification plus defaults, under its own name. */
  lemma SingleExpansion(spec: Dict)
    requires Expandable(spec) && !HasKey(spec, "variants")
    ensures |ExpandedData(spec)| == 1
    ensures ExpandedData(spec)[0] == WithDefaults(spec)
    ensures Get(ExpandedData(spec)[0], "name") == Get(spec, "name")
    ensures Keys(spec) <= Keys(ExpandedData(spec)[0])
  {
    WithDefaultsKeepsOrder(spec);
  }

  /** With variants, expansion yields one benchmark per variant, in iteration order (none for an empty mapping). */
  lemma VariantCount(spec: Dict)
    requires Expandable(spec) && HasKey(spec, "variants")
    ensures |ExpandedData(spec)| == |Variants(spec)|
  {
    ExpandVariantsAt(spec, Variants(spec), 0);
  }

  lemma VariantDataName(spec: Dict, variantName: string, extraDefines: seq<Value>)
    requires Expandable(spec) && HasKey(spec, "variants")
    ensures Get(VariantData(spec, variantName, extraDefines), "name") == Some(Str(Get(spec, "name").value.s + "_" + variantName))
  {
    var v := VariantSpec(spec, variantName, extraDefines);
    assert Get(WithDefaults(v), "name") == Get(v, "name");
  }

  lemma VariantDataDefines(spec: Dict, variantName: string, extraDefines: seq<Value>)
    requires Expandable(spec) && HasKey(spec, "variants")
    ensures Get(VariantData(spec, variantName, extraDefines), "defines") == Some(List(GlobalDefines(spec) + extraDefines))
  {
  }

  lemma VariantDataHasNoVariants(spec: Dict, variantName: string, extraDefines: seq<Value>)
    requires Expandable(spec) && HasKey(spec, "variants")
    ensures !HasKey(VariantData(spec, variantName, extraDefines), "variants")
  {
    var v := VariantSpec(spec, variantName, extraDefines);
    assert Get(WithDefaults(v), "variants") == Get(v, "variants");
  }

  lemma VariantDataDefaults(spec: Dict, variantName: string, extraDefines: seq<Value>)
    requires Expandable(spec) && HasKey(spec, "variants")
    ensures Get(VariantData(spec, variantName, extraDefines), "comments") ==
      if HasKey(spec, "comments") then Get(spec, "comments") else Some(Str(""))
    ensures Get(VariantData(spec, variantName, extraDefines), "dependencies") ==
      if HasKey(spec, "dependencies") then Get(spec, "dependencies") else Some(Mapping([]))
  {
    var v := VariantSpec(spec, variantName, extraDefines);
    assert Get(v, "comments") == Get(spec, "comments");
    assert Get(v, "dependencies") == Get(spec, "dependencies");
  }

  lemma VariantDataOtherKeys(spec: Dict, variantName: string, extraDefines: seq<Value>)
    requires Expandable(spec) && HasKey(spec, "variants")
    ensures forall k :: k != "variants" && k != "name" && k != "defines" && k != "comments" && k != "dependencies" ==>
      Get(VariantData(spec, variantName, extraDefines), k) == Get(spec, k)
  {
  }

  /**
    The i-th benchmark of an expansion with variants is named `{name}_{variant}`,
    its defines are the global ones followed by the variant's, it has no `variants`,
    and every other key has the specification's value (or the constructor's default).
   */
  lemma VariantExpansion(spec: Dict, i: nat)
    requires Expandable(spec) && HasKey(spec, "variants") && i < |Variants(spec)|
    ensures |ExpandedData(spec)| == |Variants(spec)|
    ensures Get(ExpandedData(spec)[i], "name") == Some(Str(Get(spec, "name").value.s + "_" + Variants(spec)[i].0))
    ensures Get(ExpandedData(spec)[i], "defines") == Some(List(GlobalDefines(spec) + Variants(spec)[i].1.items))
    ensures !HasKey(ExpandedData(spec)[i], "variants")
    ensures Get(ExpandedData(spec)[i], "comments") ==
      if HasKey(spec, "comments") then Get(spec, "comments") else Some(Str(""))
    ensures Get(ExpandedData(spec)[i], "dependencies") ==
      if HasKey(spec, "dependencies") then Get(spec, "dependencies") else Some(Mapping([]))
    ensures forall k :: k != "variants" && k != "name" && k != "defines" && k != "comments" && k != "dependencies" ==>
      Get(ExpandedData(spec)[i], k) == Get(spec, k)
  {
    var (variantName, extra) := Variants(spec)[i];
    ExpandVariantsAt(spec, Variants(spec), i);
    assert ExpandedData(spec)[i] == VariantData(spec, variantName, extra.items);
    VariantDataName(spec, variantName, extra.items);
    VariantDataDefines(spec, variantName, extra.items);
    VariantDataHasNoVariants(spec, variantName, extra.items);
    VariantDataDefaults(spec, variantName, extra.items);
    VariantDataOtherKeys(spec, variantName, extra.items);
  }

  /** The data of each benchmark, in order. */
  ghost function DataOf(benchmarks: seq<Benchmark>): seq<Dict>
  {
    if |benchmarks| == 0 then [] else DataOf(benchmarks[..|benchmarks| - 1]) + [benchmarks[|benchmarks| - 1].data]
  }

  /** Appending the benchmark of the next variant keeps the benchmarks in step with the expansion. */
  lemma DataOfSnoc(spec: Dict, vs: seq<(string, Value)>, i: nat, benchmarks: seq<Benchmark>, b: Benchmark)
    requires Expandable(spec) && HasKey(spec, "variants")
    requires forall i :: 0 <= i < |vs| ==> vs[i].1.List?
    requires i < |vs|
    requires DataOf(benchmarks) == ExpandVariants(spec, vs[..i])
    requires b.data == VariantData(spec, vs[i].0, vs[i].1.items)
    ensures DataOf(benchmarks + [b]) == ExpandVariants(spec, vs[..i + 1])
  {
    assert (benchmarks + [b])[..|benchmarks|] == benchmarks;
    ExpandVariantsSnoc(spec, vs, i);
  }

  /** No Benchmark object occurs twice. */
  predicate Unaliased(benchmarks: seq<Benchmark>)
  {
    forall i, j :: 0 <= i < j < |benchmarks| ==> benchmarks[i] != benchmarks[j]
  }

  lemma UnaliasedSnoc(benchmarks: seq<Benchmark>, b: Benchmark)
    requires Unaliased(benchmarks) && b !in benchmarks
    ensures Unaliased(benchmarks + [b])
  {
  }

  /**
    The body of `getBenchmarks`' loop: a copy of the specification without `variants`,
    with the variant's defines and name, wrapped in a new Benchmark.
   */
  method NewVariantBenchmark(spec: Dict, globalName: string, globalDefines: seq<Value>, variantName: string, defines: seq<Value>)
    returns (b: Benchmark)
    requires Expandable(spec) && HasKey(spec, "variants")
    requires globalName == Get(spec, "name").value.s && globalDefines == GlobalDefines(spec)
    ensures fresh(b)
    ensures b.data == VariantData(spec, variantName, defines)
  {
    var specCopy := spec;
    var benchmarkDefines := globalDefines + defines;
    var benchmarkName := globalName + "_" + variantName;
    specCopy := Delete(specCopy, "variants");
    specCopy := Put(specCopy, "defines", List(benchmarkDefines));
    specCopy := Put(specCopy, "name", Str(benchmarkName));
    assert specCopy == VariantSpec(spec, variantName, defines);
    b := new Benchmark(specCopy);
  }

  /**
    `getBenchmarks`: one fresh Benchmark per expanded specification, in order. The
    specification is a value, so the caller's document is never changed, and no two
    benchmarks share an object.
   */
  method GetBenchmarks(spec: Dict) returns (benchmarks: seq<Benchmark>)
    requires Expandable(spec)
    ensures DataOf(benchmarks) == ExpandedData(spec)
    ensures forall b :: b in benchmarks ==> fresh(b)
    ensures Unaliased(benchmarks)
  {
    if HasKey(spec, "variants") {
      var globalDefines: seq<Value> := [];
      if HasKey(spec, "defines") {
        globalDefines := globalDefines + Get(spec, "defines").value.items;
      }
      var globalName := Get(spec, "name").value.s;
      var variants := Get(spec, "variants").value.entries;
      benchmarks := [];
      var i := 0;
      while i < |variants|
        invariant 0 <= i <= |variants|
        invariant globalDefines == GlobalDefines(spec) && variants == Variants(spec)
        invariant |benchmarks| == i
        invariant DataOf(benchmarks) == ExpandVariants(spec, variants[..i])
        invariant forall b :: b in benchmarks ==> fresh(b)
        invariant Unaliased(benchmarks)
      {
        var (variantName, defines) := variants[i];
        var b := NewVariantBenchmark(spec, globalName, globalDefines, variantName, defines.items);
        DataOfSnoc(spec, variants, i, benchmarks, b);
        UnaliasedSnoc(benchmarks, b);
        benchmarks := benchmarks + [b];
        i := i + 1;
      }
      assert variants[..i] == variants;
    } else {
      var b := new Benchmark(spec);
      benchmarks := [b];
      assert benchmarks[..0] == [];
    }
  }
}
