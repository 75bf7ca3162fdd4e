/**
  Generation of the CMake declarations for a list of benchmarks (svcb/svcb/build.py).

  The generated text is modelled as a sequence of declarations, one `Decl` per
  fragment the generator appends, in the order it appends them; the comment on each
  constructor gives the CMake it stands for.
 */
module Build {
  import opened Results
  import opened Documents
  import opened Sequences
  import opened BenchmarkModel

  datatype Decl =
    | Header                                 // # Autogenerated. DO NOT MODIFY!
    | BlockStart                             // ####
    | ArchNotSupported(target: string)       // message(STATUS "Compiler cannot build target {target}. Architecture not supported by compiler")
    | SetTrue(variable: string)              // set({variable} TRUE)
    | SetEmpty(variable: string)             // set({variable} "")
    | DisableUnless(condition: string, toggle: string, reasons: string, reason: string)
        // if (NOT {condition}) set({toggle} FALSE) list(APPEND {reasons} "{reason}") endif()
    | IfEnabled(toggle: string)              // if ({toggle})
    | AddExecutable(target: string)          // add_executable({target}
    | SourceFile(path: string)               //     {path}
    | CloseParen                             // )
    | LinkLibraries(target: string, libraries: string)   // target_link_libraries({target} PRIVATE {libraries})
    | CompileDefinitions(target: string)     // target_compile_definitions({target} PRIVATE
    | Definition(macro: string)              //   {macro}
    | CompileOptions(target: string, options: string)    // target_compile_options({target} PRIVATE {options})
    | AppendLinkFlags(target: string, flags: string)
        // set_property(TARGET {target} APPEND_STRING PROPERTY LINK_FLAGS " {flags}")
    | ElseWarnDisabled(target: string)
        // else() … message(WARNING "Not building target {target} due to ${msgConcat}") … endif()

  /** What one dependency contributes: a guard emitted before `if`, the declarations attached inside it. */
  datatype DependencyDecl = DependencyDecl(guard: Decl, attach: seq<Decl>)

  datatype BuildError =
    | UnhandledDependency(name: string)      // 'Unhandled benchmark dependency "{name}"'
    | UnknownLanguage                        // 'Unknown benchmark language'

  // ---------------------------------------------------------------------------
  // Names.
  // ---------------------------------------------------------------------------

  predicate IsLower(c: char)
  {
    'a' <= c <= 'z'
  }

  function UpperChar(c: char): char
  {
    if IsLower(c) then (c as int - 'a' as int + 'A' as int) as char else c
  }

  /** `s.upper()` on ASCII letters. */
  function Upper(s: string): (r: string)
    ensures |r| == |s|
    ensures forall i :: 0 <= i < |r| ==> !IsLower(r[i])
  {
    seq(|s|, i requires 0 <= i < |s| => UpperChar(s[i]))
  }

  /** Upper-casing only changes lower-case letters, and doing it twice changes nothing more. */
  lemma UpperProperties(s: string)
    ensures forall i :: 0 <= i < |s| && !IsLower(s[i]) ==> Upper(s)[i] == s[i]
    ensures forall i :: 0 <= i < |s| && IsLower(s[i]) ==> Upper(s)[i] as int == s[i] as int - 32
    ensures Upper(Upper(s)) == Upper(s)
  {
  }

  /** `language.replace('+', 'X').upper()`: the tag in `HAS_STD_{tag}` and `SVCOMP_STD_{tag}`. */
  function LangTag(language: string): (r: string)
    ensures |r| == |language|
    ensures forall i :: 0 <= i < |r| ==> r[i] != '+' && !IsLower(r[i])
    ensures forall i :: 0 <= i < |r| ==> language[i] == '+' ==> r[i] == 'X'
    ensures forall i :: 0 <= i < |r| && language[i] != '+' ==> r[i] == UpperChar(language[i])
  {
    Upper(seq(|language|, i requires 0 <= i < |language| => if language[i] == '+' then 'X' else language[i]))
  }

  /** The tags of the language standards the schema names. */
  lemma LangTagExamples()
    ensures LangTag("c99") == "C99" && LangTag("c11") == "C11"
    ensures LangTag("c++11") == "CXX11" && LangTag("gnu++14") == "GNUXX14"
  {
  }

  /** The toggle variable `ENABLE_TARGET_{NAME}`: shared by every architecture of a benchmark. */
  function ToggleVariable(name: string): (r: string)
    ensures |r| == |"ENABLE_TARGET_"| + |name| && r[..|"ENABLE_TARGET_"|] == "ENABLE_TARGET_"
    ensures forall i :: 0 <= i < |name| ==> r[|"ENABLE_TARGET_"| + i] == UpperChar(name[i])
  {
    "ENABLE_TARGET_" + Upper(name)
  }

  const ReasonsVariable := "DISABLED_TARGET_REASONS"

  /** The target `{name}.{arch}`: the name, a dot, then the architecture. */
  function TargetName(name: string, arch: string): (r: string)
    ensures |r| == |name| + 1 + |arch|
    ensures r[..|name|] == name && r[|name|] == '.' && r[|name| + 1..] == arch
  {
    name + "." + arch
  }

  /** The targets of one benchmark differ exactly when their architectures do. */
  lemma TargetNamesDistinct(name: string, a1: string, a2: string)
    ensures TargetName(name, a1) == TargetName(name, a2) <==> a1 == a2
  {
    if TargetName(name, a1) == TargetName(name, a2) {
      assert a1 == TargetName(name, a1)[|name| + 1..];
    }
  }

  /** `os.path.join(root, path)` on POSIX. */
  function Join(root: string, path: string): (r: string)
    ensures |path| > 0 && path[0] == '/' ==> r == path
    ensures !(|path| > 0 && path[0] == '/') ==> |r| >= |root| + |path| && r[..|root|] == root && r[|r| - |path|..] == path
  {
    if |path| > 0 && path[0] == '/' then path
    else if |root| == 0 || root[|root| - 1] == '/' then root + path
    else root + "/" + path
  }

  // ---------------------------------------------------------------------------
  // Benchmarks as the generator reads them.
  // ---------------------------------------------------------------------------

  /** `architectures` is the string 'any' or a list of architecture names. */
  predicate ArchitecturesShaped(o: Option<Value>)
  {
    o == Some(Str("any")) || IsTextList(o)
  }

  /** The architectures iterated over: `{'any'}` for the string 'any', the list otherwise. */
  function ArchitectureList(o: Option<Value>): seq<string>
    requires ArchitecturesShaped(o)
  {
    if o.value.Str? then ["any"] else Texts(o.value.items)
  }

  /** A target is generated for `any` and for the compiler's architecture. */
  predicate ArchEnabled(arch: string, supported: string)
  {
    arch == "any" || arch == supported
  }

  /** The fields an enabled target reads. */
  predicate Shaped(b: Benchmark)
  {
    && IsText(b.Language())
    && IsTextList(b.Sources())
    && IsTextList(b.Defines())
    && IsMapping(b.Dependencies())
  }

  predicate HasEnabledArchitecture(archs: seq<string>, supported: string)
  {
    exists i :: 0 <= i < |archs| && ArchEnabled(archs[i], supported)
  }

  /**
    What the generator asserts or relies on for one benchmark: a string name, the
    architectures in one of their two forms, and, once some architecture is enabled,
    the fields the declarations are made from.
   */
  predicate Buildable(b: Benchmark, supported: string)
  {
    && IsText(b.Name())
    && ArchitecturesShaped(b.Architectures())
    && ShapedWhereEnabled(b, ArchitectureList(b.Architectures()), supported)
  }

  /** The benchmark is shaped if one of `archs` is enabled. */
  predicate ShapedWhereEnabled(b: Benchmark, archs: seq<string>, supported: string)
  {
    forall i :: 0 <= i < |archs| ==> ArchEnabled(archs[i], supported) ==> Shaped(b)
  }

  // ---------------------------------------------------------------------------
  // Dependencies.
  // ---------------------------------------------------------------------------

  /** `generate_pthreads_dependency_code` */
  function PthreadsDecl(target: string, toggle: string, reasons: string): DependencyDecl
  {
    DependencyDecl(
      DisableUnless("CMAKE_USE_PTHREADS_INIT", toggle, reasons, "Pthreads library not available"),
      [LinkLibraries(target, "${CMAKE_THREAD_LIBS_INIT}")])
  }

  /** `generate_openmp_dependency_code`: the flags depend on the language family. */
  function OpenMPDecl(b: Benchmark, target: string, toggle: string, reasons: string): Result<DependencyDecl, BuildError>
    requires IsText(b.Language())
  {
    var guard := DisableUnless("OPENMP_FOUND", toggle, reasons, "OpenMP not available");
    if b.IsLanguageC() then
      Ok(DependencyDecl(guard, [CompileOptions(target, "${OpenMP_C_FLAGS}"), AppendLinkFlags(target, "${OpenMP_C_FLAGS}")]))
    else if b.IsLanguageCXX() then
      Ok(DependencyDecl(guard, [CompileOptions(target, "${OpenMP_CXX_FLAGS}"), AppendLinkFlags(target, "${OpenMP_CXX_FLAGS}")]))
    else
      Err(UnknownLanguage)
  }

  /**
    The OpenMP fragment never fails: its unknown-language branch is unreachable. It
    uses the C++ flags exactly when the language contains "++".
   */
  lemma OpenMPFlags(b: Benchmark, target: string, toggle: string, reasons: string)
    requires IsText(b.Language())
    ensures OpenMPDecl(b, target, toggle, reasons).Ok?
    ensures var lang := b.Language().value.s;
      var flags := if exists i :: 0 <= i < |lang| - 1 && lang[i] == '+' && lang[i + 1] == '+'
        then "${OpenMP_CXX_FLAGS}" else "${OpenMP_C_FLAGS}";
      OpenMPDecl(b, target, toggle, reasons).value ==
        DependencyDecl(DisableUnless("OPENMP_FOUND", toggle, reasons, "OpenMP not available"),
                       [CompileOptions(target, flags), AppendLinkFlags(target, flags)])
  {
    LanguageFamilies(b);
  }

  predicate KnownDependency(name: string)
  {
    name == "pthreads" || name == "openmp"
  }

  /** The dispatch on one dependency name. */
  function DependencyDeclFor(b: Benchmark, name: string, target: string, toggle: string, reasons: string)
    : Result<DependencyDecl, BuildError>
    requires IsText(b.Language())
  {
    if name == "pthreads" then Ok(PthreadsDecl(target, toggle, reasons))
    else if name == "openmp" then OpenMPDecl(b, target, toggle, reasons)
    else Err(UnhandledDependency(name))
  }

  /** `generate_dependency_decls` over the dependencies `deps`, in iteration order; the first failure wins. */
  function DependencyDeclsOf(b: Benchmark, deps: seq<(string, Value)>, target: string, toggle: string, reasons: string)
    : Result<seq<DependencyDecl>, BuildError>
    requires IsText(b.Language())
  {
    if |deps| == 0 then Ok([])
    else
      match DependencyDeclsOf(b, deps[..|deps| - 1], target, toggle, reasons)
      case Err(e) => Err(e)
      case Ok(ds) =>
        match DependencyDeclFor(b, deps[|deps| - 1].0, target, toggle, reasons)
        case Err(e) => Err(e)
        case Ok(d) => Ok(ds + [d])
  }

  /** One name dispatches exactly when it is `pthreads` or `openmp`. */
  lemma DependencyDeclForOk(b: Benchmark, name: string, target: string, toggle: string, reasons: string)
    requires IsText(b.Language())
    ensures DependencyDeclFor(b, name, target, toggle, reasons).Ok? <==> KnownDependency(name)
    ensures !KnownDependency(name) ==> DependencyDeclFor(b, name, target, toggle, reasons) == Err(UnhandledDependency(name))
  {
    OpenMPFlags(b, target, toggle, reasons);
  }

  /**
    Dispatch succeeds exactly when every dependency is `pthreads` or `openmp`, and
    then yields one (guard, attach) pair per dependency, in order.
   */
  lemma {:induction false} DependencyDispatch(b: Benchmark, deps: seq<(string, Value)>, target: string, toggle: string, reasons: string)
    requires IsText(b.Language())
    ensures DependencyDeclsOf(b, deps, target, toggle, reasons).Ok? <==>
      forall i :: 0 <= i < |deps| ==> KnownDependency(deps[i].0)
    ensures DependencyDeclsOf(b, deps, target, toggle, reasons).Ok? ==>
      var ds := DependencyDeclsOf(b, deps, target, toggle, reasons).value;
      |ds| == |deps| && forall i :: 0 <= i < |deps| ==> DependencyDeclFor(b, deps[i].0, target, toggle, reasons) == Ok(ds[i])
  {
    if |deps| > 0 {
      var prefix := deps[..|deps| - 1];
      DependencyDispatch(b, prefix, target, toggle, reasons);
      DependencyDeclForOk(b, deps[|deps| - 1].0, target, toggle, reasons);
      assert forall k :: 0 <= k < |deps| - 1 ==> deps[k] == prefix[k];
    }
  }

  /** A failed dispatch names the first dependency that is neither `pthreads` nor `openmp`. */
  lemma {:induction false} DependencyDispatchError(b: Benchmark, deps: seq<(string, Value)>, target: string, toggle: string, reasons: string)
    requires IsText(b.Language())
    ensures DependencyDeclsOf(b, deps, target, toggle, reasons).Err? ==>
      exists j :: 0 <= j < |deps| && !KnownDependency(deps[j].0) && (forall k :: 0 <= k < j ==> KnownDependency(deps[k].0)) &&
        DependencyDeclsOf(b, deps, target, toggle, reasons).error == UnhandledDependency(deps[j].0)
  {
    if |deps| > 0 {
      var prefix := deps[..|deps| - 1];
      var j := |deps| - 1;
      DependencyDispatchError(b, prefix, target, toggle, reasons);
      DependencyDispatch(b, prefix, target, toggle, reasons);
      DependencyDeclForOk(b, deps[j].0, target, toggle, reasons);
      assert forall k :: 0 <= k < j ==> deps[k] == prefix[k];
    }
  }

  /** `generate_dependency_decls(benchmarkObj, targetName, …)` */
  method GenerateDependencyDecls(b: Benchmark, target: string, toggle: string, reasons: string)
    returns (r: Result<seq<DependencyDecl>, BuildError>)
    requires IsText(b.Language()) && IsMapping(b.Dependencies())
    ensures r == DependencyDeclsOf(b, b.Dependencies().value.entries, target, toggle, reasons)
  {
    var deps := b.Dependencies().value.entries;
    var decls: seq<DependencyDecl> := [];
    var i := 0;
    while i < |deps|
      invariant 0 <= i <= |deps|
      invariant DependencyDeclsOf(b, deps[..i], target, toggle, reasons) == Ok(decls)
    {
      var (depName, _) := deps[i];
      assert deps[..i + 1][..i] == deps[..i];
      var decl := DependencyDeclFor(b, depName, target, toggle, reasons);
      if decl.Err? {
        ErrorPersists(b, deps, i + 1, target, toggle, reasons);
        return Err(decl.error);
      }
      decls := decls + [decl.value];
      i := i + 1;
    }
    assert deps[..i] == deps;
    return Ok(decls);
  }

  /** Once dispatch has failed on a prefix of the dependencies, it fails the same way on all of them. */
  lemma {:induction false} ErrorPersists(b: Benchmark, deps: seq<(string, Value)>, n: nat, target: string, toggle: string, reasons: string)
    requires IsText(b.Language()) && n <= |deps|
    requires DependencyDeclsOf(b, deps[..n], target, toggle, reasons).Err?
    ensures DependencyDeclsOf(b, deps, target, toggle, reasons) == DependencyDeclsOf(b, deps[..n], target, toggle, reasons)
    decreases |deps| - n
  {
    if n < |deps| {
      assert deps[..n + 1][..n] == deps[..n];
      ErrorPersists(b, deps, n + 1, target, toggle, reasons);
    } else {
      assert deps[..n] == deps;
    }
  }

  // ---------------------------------------------------------------------------
  // One block per (benchmark, architecture) pair.
  // ---------------------------------------------------------------------------

  /** The guards of the dependencies, in order. */
  function Guards(deps: seq<DependencyDecl>): seq<Decl>
  {
    if |deps| == 0 then [] else Guards(deps[..|deps| - 1]) + [deps[|deps| - 1].guard]
  }

  /** The attach fragments of the dependencies, in order. */
  function Attaches(deps: seq<DependencyDecl>): seq<Decl>
  {
    if |deps| == 0 then [] else Attaches(deps[..|deps| - 1]) + deps[|deps| - 1].attach
  }

  /** One line per source, joined to the source root, in order. */
  function SourceDecls(root: string, sources: seq<string>): seq<Decl>
  {
    if |sources| == 0 then [] else SourceDecls(root, sources[..|sources| - 1]) + [SourceFile(Join(root, sources[|sources| - 1]))]
  }

  /** One line per macro definition, in order. */
  function Definitions(defines: seq<string>): seq<Decl>
  {
    if |defines| == 0 then [] else Definitions(defines[..|defines| - 1]) + [Definition(defines[|defines| - 1])]
  }

  /** The `target_compile_definitions` group, emitted only when there are defines. */
  function DefinesDecls(target: string, defines: seq<string>): seq<Decl>
  {
    if |defines| == 0 then [] else [CompileDefinitions(target)] + Definitions(defines) + [CloseParen]
  }

  /** The guard that disables the target when the compiler lacks the language standard. */
  function LanguageGuard(tag: string, toggle: string): Decl
  {
    DisableUnless("HAS_STD_" + tag, toggle, ReasonsVariable, "Compiler does not support language standard " + tag)
  }

  function StdFlags(tag: string): string
  {
    "${SVCOMP_STD_" + tag + "}"
  }

  const RuntimeLibrary := "svcomp_runtime"

  /**
    What follows `####` in the block of an enabled target, given its toggle
    variable, the language tag of its standard, its sources and defines, and the
    pairs its dependencies dispatched to.
   */
  function EnabledBody(target: string, toggle: string, tag: string, root: string,
                       sources: seq<string>, defines: seq<string>, deps: seq<DependencyDecl>): seq<Decl>
  {
    [SetTrue(toggle)] + [SetEmpty(ReasonsVariable)]
    + Guards(deps)
    + [LanguageGuard(tag, toggle)] + [IfEnabled(toggle)] + [AddExecutable(target)]
    + SourceDecls(root, sources)
    + [CloseParen] + [LinkLibraries(target, RuntimeLibrary)]
    + DefinesDecls(target, defines)
    + [CompileOptions(target, StdFlags(tag))]
    + Attaches(deps)
    + [ElseWarnDisabled(target)]
  }

  /** The dependency dispatch of one target. */
  function TargetDependencies(b: Benchmark, target: string): Result<seq<DependencyDecl>, BuildError>
    requires IsText(b.Name()) && Shaped(b)
  {
    DependencyDeclsOf(b, b.Dependencies().value.entries, target, ToggleVariable(b.Name().value.s), ReasonsVariable)
  }

  /**
    The block for one architecture: a status message alone when the architecture is
    neither `any` nor the supported one, the guarded target otherwise.
   */
  function BlockDecls(b: Benchmark, arch: string, root: string, supported: string): Result<seq<Decl>, BuildError>
    requires IsText(b.Name()) && (ArchEnabled(arch, supported) ==> Shaped(b))
  {
    var target := TargetName(b.Name().value.s, arch);
    if !ArchEnabled(arch, supported) then
      Ok([BlockStart, ArchNotSupported(target)])
    else
      match TargetDependencies(b, target)
      case Err(e) => Err(e)
      case Ok(deps) =>
        Ok([BlockStart] + EnabledBody(target, ToggleVariable(b.Name().value.s), LangTag(b.Language().value.s), root,
                         Texts(b.Sources().value.items), Texts(b.Defines().value.items), deps))
  }

  /** Appending two pieces of output; the first error wins. */
  function Concat(r1: Result<seq<Decl>, BuildError>, r2: Result<seq<Decl>, BuildError>): Result<seq<Decl>, BuildError>
  {
    if r1.Err? then r1 else if r2.Err? then r2 else Ok(r1.value + r2.value)
  }

  lemma ConcatAssociative(r1: Result<seq<Decl>, BuildError>, r2: Result<seq<Decl>, BuildError>, r3: Result<seq<Decl>, BuildError>)
    ensures Concat(Concat(r1, r2), r3) == Concat(r1, Concat(r2, r3))
  {
    if r1.Ok? && r2.Ok? && r3.Ok? {
      assert r1.value + r2.value + r3.value == r1.value + (r2.value + r3.value);
    }
  }

  lemma ConcatEmpty(r: Result<seq<Decl>, BuildError>)
    ensures Concat(r, Ok([])) == r
  {
    if r.Ok? {
      assert r.value + [] == r.value;
    }
  }

  /** The blocks of one benchmark for the architectures `archs`, in order. */
  function ArchitectureDecls(b: Benchmark, archs: seq<string>, root: string, supported: string): Result<seq<Decl>, BuildError>
    requires IsText(b.Name()) && ShapedWhereEnabled(b, archs, supported)
  {
    if |archs| == 0 then Ok([])
    else Concat(ArchitectureDecls(b, archs[..|archs| - 1], root, supported), BlockDecls(b, archs[|archs| - 1], root, supported))
  }

  /** The blocks of one benchmark. */
  function BenchmarkDecls(b: Benchmark, root: string, supported: string): Result<seq<Decl>, BuildError>
    requires Buildable(b, supported)
  {
    ArchitectureDecls(b, ArchitectureList(b.Architectures()), root, supported)
  }

  /** The blocks of the benchmarks, in order. */
  function BenchmarksDecls(bs: seq<Benchmark>, root: string, supported: string): Result<seq<Decl>, BuildError>
    requires forall i :: 0 <= i < |bs| ==> Buildable(bs[i], supported)
  {
    if |bs| == 0 then Ok([])
    else Concat(BenchmarksDecls(bs[..|bs| - 1], root, supported), BenchmarkDecls(bs[|bs| - 1], root, supported))
  }

  /** `generateCMakeDecls`: the header, then the blocks. */
  function CMakeDecls(bs: seq<Benchmark>, root: string, supported: string): Result<seq<Decl>, BuildError>
    requires forall i :: 0 <= i < |bs| ==> Buildable(bs[i], supported)
  {
    Concat(Ok([Header]), BenchmarksDecls(bs, root, supported))
  }

  // ---------------------------------------------------------------------------
  // The generator.
  // ---------------------------------------------------------------------------

  /** The loop emitting the dependency guards. */
  method EmitGuards(block: seq<Decl>, deps: seq<DependencyDecl>) returns (out: seq<Decl>)
    ensures out == block + Guards(deps)
  {
    out := block;
    for k := 0 to |deps|
      invariant out == block + Guards(deps[..k])
    {
      assert deps[..k + 1][..k] == deps[..k];
      out := out + [deps[k].guard];
    }
    assert deps[..|deps|] == deps;
  }

  /** The loop emitting the sources, each joined to the source root. */
  method EmitSources(block: seq<Decl>, sourceRootDir: string, sources: seq<string>) returns (out: seq<Decl>)
    ensures out == block + SourceDecls(sourceRootDir, sources)
  {
    out := block;
    for k := 0 to |sources|
      invariant out == block + SourceDecls(sourceRootDir, sources[..k])
    {
      assert sources[..k + 1][..k] == sources[..k];
      out := out + [SourceFile(Join(sourceRootDir, sources[k]))];
    }
    assert sources[..|sources|] == sources;
  }

  /** The custom macro definitions, emitted only when there are some. */
  method EmitDefines(block: seq<Decl>, targetName: string, defines: seq<string>) returns (out: seq<Decl>)
    ensures out == block + DefinesDecls(targetName, defines)
  {
    out := block;
    if |defines| > 0 {
      out := out + [CompileDefinitions(targetName)];
      for k := 0 to |defines|
        invariant out == block + [CompileDefinitions(targetName)] + Definitions(defines[..k])
      {
        assert defines[..k + 1][..k] == defines[..k];
        out := out + [Definition(defines[k])];
      }
      assert defines[..|defines|] == defines;
      out := out + [CloseParen];
      AppendAssociative(block, [CompileDefinitions(targetName)], Definitions(defines));
      AppendAssociative(block, [CompileDefinitions(targetName)] + Definitions(defines), [CloseParen]);
    } else {
      assert block + [] == block;
    }
  }

  /** The loop emitting the dependency attach fragments. */
  method EmitAttaches(block: seq<Decl>, deps: seq<DependencyDecl>) returns (out: seq<Decl>)
    ensures out == block + Attaches(deps)
  {
    out := block;
    for k := 0 to |deps|
      invariant out == block + Attaches(deps[..k])
    {
      assert deps[..k + 1][..k] == deps[..k];
      out := out + deps[k].attach;
    }
    assert deps[..|deps|] == deps;
  }

  /** The body of `generateCMakeDecls`' loop over architectures: the declarations of one block. */
  method EmitBlock(b: Benchmark, arch: string, sourceRootDir: string, supportedArchitecture: string)
    returns (r: Result<seq<Decl>, BuildError>)
    requires IsText(b.Name()) && (ArchEnabled(arch, supportedArchitecture) ==> Shaped(b))
    ensures r == BlockDecls(b, arch, sourceRootDir, supportedArchitecture)
  {
    var block := [BlockStart];
    var targetName := TargetName(b.Name().value.s, arch);
    if arch != "any" && arch != supportedArchitecture {
      block := block + [ArchNotSupported(targetName)];
      assert block == [BlockStart, ArchNotSupported(targetName)];
      return Ok(block);
    }
    var enableTargetCMakeVariable := ToggleVariable(b.Name().value.s);
    var body := [SetTrue(enableTargetCMakeVariable)];
    var disabledTargetReasonsCMakeVariable := ReasonsVariable;
    body := body + [SetEmpty(disabledTargetReasonsCMakeVariable)];
    var dependencyHandling := GenerateDependencyDecls(b, targetName, enableTargetCMakeVariable, disabledTargetReasonsCMakeVariable);
    if dependencyHandling.Err? {
      return Err(dependencyHandling.error);
    }
    var deps := dependencyHandling.value;
    body := EmitGuards(body, deps);
    var langVer := LangTag(b.Language().value.s);
    body := body + [LanguageGuard(langVer, enableTargetCMakeVariable)];
    body := body + [IfEnabled(enableTargetCMakeVariable)];
    body := body + [AddExecutable(targetName)];
    body := EmitSources(body, sourceRootDir, Texts(b.Sources().value.items));
    body := body + [CloseParen];
    body := body + [LinkLibraries(targetName, RuntimeLibrary)];
    body := EmitDefines(body, targetName, Texts(b.Defines().value.items));
    body := body + [CompileOptions(targetName, StdFlags(langVer))];
    body := EmitAttaches(body, deps);
    body := body + [ElseWarnDisabled(targetName)];
    return Ok(block + body);
  }

  /** Once the blocks of a prefix of the architectures have failed, the benchmark fails the same way. */
  lemma {:induction false} ArchitectureErrorPersists(b: Benchmark, archs: seq<string>, n: nat, root: string, supported: string)
    requires IsText(b.Name()) && ShapedWhereEnabled(b, archs, supported) && n <= |archs|
    requires ArchitectureDecls(b, archs[..n], root, supported).Err?
    ensures ArchitectureDecls(b, archs, root, supported) == ArchitectureDecls(b, archs[..n], root, supported)
    decreases |archs| - n
  {
    if n < |archs| {
      assert archs[..n + 1][..n] == archs[..n];
      ArchitectureErrorPersists(b, archs, n + 1, root, supported);
    } else {
      assert archs[..n] == archs;
    }
  }

  /** Once the blocks of a prefix of the benchmarks have failed, the whole output fails the same way. */
  lemma {:induction false} BenchmarkErrorPersists(bs: seq<Benchmark>, n: nat, root: string, supported: string)
    requires forall i :: 0 <= i < |bs| ==> Buildable(bs[i], supported)
    requires n <= |bs| && BenchmarksDecls(bs[..n], root, supported).Err?
    ensures BenchmarksDecls(bs, root, supported) == BenchmarksDecls(bs[..n], root, supported)
    decreases |bs| - n
  {
    if n < |bs| {
      assert bs[..n + 1][..n] == bs[..n];
      BenchmarkErrorPersists(bs, n + 1, root, supported);
    } else {
      assert bs[..n] == bs;
    }
  }

  /** The body of `generateCMakeDecls`' loop over benchmarks: the blocks of one benchmark. */
  method EmitBenchmark(b: Benchmark, sourceRootDir: string, supportedArchitecture: string)
    returns (r: Result<seq<Decl>, BuildError>)
    requires Buildable(b, supportedArchitecture)
    ensures r == BenchmarkDecls(b, sourceRootDir, supportedArchitecture)
  {
    var declStr := [];
    var benchmarkArchitectures := ArchitectureList(b.Architectures());
    for j := 0 to |benchmarkArchitectures|
      invariant ArchitectureDecls(b, benchmarkArchitectures[..j], sourceRootDir, supportedArchitecture) == Ok(declStr)
    {
      var arch := benchmarkArchitectures[j];
      assert benchmarkArchitectures[..j + 1][..j] == benchmarkArchitectures[..j];
      var block := EmitBlock(b, arch, sourceRootDir, supportedArchitecture);
      if block.Err? {
        ArchitectureErrorPersists(b, benchmarkArchitectures, j + 1, sourceRootDir, supportedArchitecture);
        return Err(block.error);
      }
      declStr := declStr + block.value;
    }
    assert benchmarkArchitectures[..|benchmarkArchitectures|] == benchmarkArchitectures;
    return Ok(declStr);
  }

  /**
    `generateCMakeDecls(benchmarkObjs, sourceRootDir, supportedArchitecture)`. The
    source root's existence as a directory is a fact about the file system, passed in.
   */
  method GenerateCMakeDecls(benchmarks: seq<Benchmark>, sourceRootDir: string, sourceRootIsDirectory: bool, supportedArchitecture: string)
    returns (r: Result<seq<Decl>, BuildError>)
    requires sourceRootIsDirectory
    requires forall i :: 0 <= i < |benchmarks| ==> Buildable(benchmarks[i], supportedArchitecture)
    ensures r == CMakeDecls(benchmarks, sourceRootDir, supportedArchitecture)
  {
    var declStr := [Header];
    ConcatEmpty(Ok([Header]));
    for i := 0 to |benchmarks|
      invariant Concat(Ok([Header]), BenchmarksDecls(benchmarks[..i], sourceRootDir, supportedArchitecture)) == Ok(declStr)
    {
      assert benchmarks[..i + 1][..i] == benchmarks[..i];
      var decls := EmitBenchmark(benchmarks[i], sourceRootDir, supportedArchitecture);
      if decls.Err? {
        BenchmarkErrorPersists(benchmarks, i + 1, sourceRootDir, supportedArchitecture);
        return Err(decls.error);
      }
      ConcatAssociative(Ok([Header]), BenchmarksDecls(benchmarks[..i], sourceRootDir, supportedArchitecture), decls);
      declStr := declStr + decls.value;
    }
    assert benchmarks[..|benchmarks|] == benchmarks;
    return Ok(declStr);
  }

  // ---------------------------------------------------------------------------
  // Shape of the output.
  // ---------------------------------------------------------------------------

  /** What a dependency may attach inside the guard of its target. */
  predicate IsAttach(d: Decl, target: string)
  {
    (d.LinkLibraries? && d.target == target) || (d.CompileOptions? && d.target == target) || (d.AppendLinkFlags? && d.target == target)
  }

  /** A dependency's guard disables the target's toggle and records a reason; its attachments are about the target. */
  predicate DependencyShaped(d: DependencyDecl, target: string, toggle: string, reasons: string)
  {
    && d.guard.DisableUnless? && d.guard.toggle == toggle && d.guard.reasons == reasons
    && forall x :: x in d.attach ==> IsAttach(x, target)
  }

  lemma DependencyDeclShape(b: Benchmark, name: string, target: string, toggle: string, reasons: string)
    requires IsText(b.Language())
    ensures DependencyDeclFor(b, name, target, toggle, reasons).Ok? ==>
      DependencyShaped(DependencyDeclFor(b, name, target, toggle, reasons).value, target, toggle, reasons)
  {
  }

  /** Every pair a dispatch yields has that shape. */
  lemma DependencyDeclsShape(b: Benchmark, deps: seq<(string, Value)>, target: string, toggle: string, reasons: string)
    requires IsText(b.Language())
    ensures DependencyDeclsOf(b, deps, target, toggle, reasons).Ok? ==>
      forall i :: 0 <= i < |DependencyDeclsOf(b, deps, target, toggle, reasons).value| ==>
        DependencyShaped(DependencyDeclsOf(b, deps, target, toggle, reasons).value[i], target, toggle, reasons)
  {
    DependencyDispatch(b, deps, target, toggle, reasons);
    forall i | 0 <= i < |deps| {
      DependencyDeclShape(b, deps[i].0, target, toggle, reasons);
    }
  }

  /** Declarations that neither open the file nor a block. */
  predicate Inner(ds: seq<Decl>)
  {
    Header !in ds && BlockStart !in ds
  }

  lemma {:induction false} GuardsShape(deps: seq<DependencyDecl>, target: string, toggle: string, reasons: string)
    requires forall i :: 0 <= i < |deps| ==> DependencyShaped(deps[i], target, toggle, reasons)
    ensures forall x :: x in Guards(deps) ==> x.DisableUnless? && x.toggle == toggle && x.reasons == reasons
    ensures Inner(Guards(deps))
  {
    if |deps| > 0 {
      GuardsShape(deps[..|deps| - 1], target, toggle, reasons);
    }
  }

  lemma {:induction false} AttachesShape(deps: seq<DependencyDecl>, target: string, toggle: string, reasons: string)
    requires forall i :: 0 <= i < |deps| ==> DependencyShaped(deps[i], target, toggle, reasons)
    ensures forall x :: x in Attaches(deps) ==> IsAttach(x, target)
    ensures Inner(Attaches(deps))
  {
    if |deps| > 0 {
      AttachesShape(deps[..|deps| - 1], target, toggle, reasons);
    }
  }

  lemma {:induction false} SourceDeclsShape(root: string, sources: seq<string>)
    ensures |SourceDecls(root, sources)| == |sources|
    ensures forall i :: 0 <= i < |sources| ==> SourceDecls(root, sources)[i] == SourceFile(Join(root, sources[i]))
    ensures Inner(SourceDecls(root, sources))
  {
    if |sources| > 0 {
      SourceDeclsShape(root, sources[..|sources| - 1]);
    }
  }

  lemma {:induction false} DefinitionsShape(defines: seq<string>)
    ensures |Definitions(defines)| == |defines|
    ensures forall i :: 0 <= i < |defines| ==> Definitions(defines)[i] == Definition(defines[i])
    ensures Inner(Definitions(defines))
  {
    if |defines| > 0 {
      DefinitionsShape(defines[..|defines| - 1]);
    }
  }

  /** How often `d` occurs in `ds`. */
  function Count(ds: seq<Decl>, d: Decl): nat
  {
    multiset(ds)[d]
  }

  /** A concatenation of the shape of a block body is inner when its parts are. */
  lemma InnerConcat(x1: Decl, x2: Decl, g: seq<Decl>, x3: Decl, x4: Decl, x5: Decl, src: seq<Decl>, x6: Decl, x7: Decl, d: seq<Decl>, x8: Decl, at: seq<Decl>, x9: Decl)
    requires Inner([x1]) && Inner([x2]) && Inner(g) && Inner([x3]) && Inner([x4]) && Inner([x5]) && Inner(src) && Inner([x6]) && Inner([x7]) && Inner(d) && Inner([x8]) && Inner(at) && Inner([x9])
    ensures Inner([x1] + [x2] + g + [x3] + [x4] + [x5] + src + [x6] + [x7] + d + [x8] + at + [x9])
  {
  }

  /** The body of an enabled block opens neither a block nor the file. */
  lemma EnabledBodyShape(target: string, toggle: string, tag: string, root: string,
                         sources: seq<string>, defines: seq<string>, deps: seq<DependencyDecl>)
    requires Inner(Guards(deps)) && Inner(Attaches(deps)) && Inner(SourceDecls(root, sources)) && Inner(Definitions(defines))
    ensures Inner(EnabledBody(target, toggle, tag, root, sources, defines, deps))
  {
    InnerConcat(SetTrue(toggle), SetEmpty(ReasonsVariable), Guards(deps), LanguageGuard(tag, toggle), IfEnabled(toggle), AddExecutable(target),
      SourceDecls(root, sources), CloseParen, LinkLibraries(target, RuntimeLibrary), DefinesDecls(target, defines), CompileOptions(target, StdFlags(tag)),
      Attaches(deps), ElseWarnDisabled(target));
  }

  lemma DelimitedBlock(body: seq<Decl>)
    requires Inner(body)
    ensures var block := [BlockStart] + body;
      block[0] == BlockStart && Count(block, BlockStart) == 1 && Count(block, Header) == 0
  {
    assert multiset(body)[BlockStart] == 0 && multiset(body)[Header] == 0;
  }

  /** The block of an enabled target whose dependencies dispatched to well-shaped pairs. */
  lemma EnabledBlockShape(target: string, toggle: string, tag: string, root: string,
                          sources: seq<string>, defines: seq<string>, deps: seq<DependencyDecl>)
    requires forall i :: 0 <= i < |deps| ==> DependencyShaped(deps[i], target, toggle, ReasonsVariable)
    ensures var block := [BlockStart] + EnabledBody(target, toggle, tag, root, sources, defines, deps);
      block[0] == BlockStart && Count(block, BlockStart) == 1 && Count(block, Header) == 0
  {
    GuardsShape(deps, target, toggle, ReasonsVariable);
    AttachesShape(deps, target, toggle, ReasonsVariable);
    SourceDeclsShape(root, sources);
    DefinitionsShape(defines);
    EnabledBodyShape(target, toggle, tag, root, sources, defines, deps);
    DelimitedBlock(EnabledBody(target, toggle, tag, root, sources, defines, deps));
  }

  /** Every block opens with `####`, which occurs in it only once, and never holds the header. */
  lemma BlockShape(b: Benchmark, arch: string, root: string, supported: string)
    requires IsText(b.Name()) && (ArchEnabled(arch, supported) ==> Shaped(b))
    ensures BlockDecls(b, arch, root, supported).Ok? ==>
      var block := BlockDecls(b, arch, root, supported).value;
      |block| > 0 && block[0] == BlockStart && Count(block, BlockStart) == 1 && Count(block, Header) == 0
  {
    var target := TargetName(b.Name().value.s, arch);
    if ArchEnabled(arch, supported) {
      var toggle := ToggleVariable(b.Name().value.s);
      DependencyDeclsShape(b, b.Dependencies().value.entries, target, toggle, ReasonsVariable);
      var deps := TargetDependencies(b, target);
      if deps.Ok? {
        EnabledBlockShape(target, toggle, LangTag(b.Language().value.s), root,
                          Texts(b.Sources().value.items), Texts(b.Defines().value.items), deps.value);
      }
    } else {
      DelimitedBlock([ArchNotSupported(target)]);
    }
  }

  /**
    For a block whose architecture is neither `any` nor the supported one the block
    is the status message alone: no toggle, no guard and no executable.
   */
  lemma UnsupportedArchitecture(b: Benchmark, arch: string, root: string, supported: string)
    requires IsText(b.Name()) && !ArchEnabled(arch, supported)
    ensures BlockDecls(b, arch, root, supported).Ok?
    ensures var block := BlockDecls(b, arch, root, supported).value;
      && block == [BlockStart, ArchNotSupported(TargetName(b.Name().value.s, arch))]
      && forall d :: d in block ==> !d.SetTrue? && !d.DisableUnless? && !d.IfEnabled? && !d.AddExecutable?
  {
  }

  /** `|architectures|` for each benchmark, summed: the number of (benchmark, architecture) pairs. */
  function PairCount(bs: seq<Benchmark>, supported: string): nat
    requires forall i :: 0 <= i < |bs| ==> Buildable(bs[i], supported)
  {
    if |bs| == 0 then 0
    else
      var last := bs[|bs| - 1];
      assert Buildable(last, supported);
      PairCount(bs[..|bs| - 1], supported) + |ArchitectureList(last.Architectures())|
  }

  lemma {:induction false} ArchitectureDeclsShape(b: Benchmark, archs: seq<string>, root: string, supported: string)
    requires IsText(b.Name()) && ShapedWhereEnabled(b, archs, supported)
    ensures ArchitectureDecls(b, archs, root, supported).Ok? ==>
      var ds := ArchitectureDecls(b, archs, root, supported).value;
      Count(ds, BlockStart) == |archs| && Count(ds, Header) == 0
  {
    if |archs| > 0 {
      var prefix := archs[..|archs| - 1];
      ArchitectureDeclsShape(b, prefix, root, supported);
      BlockShape(b, archs[|archs| - 1], root, supported);
    }
  }

  lemma {:induction false} BenchmarksDeclsShape(bs: seq<Benchmark>, root: string, supported: string)
    requires forall i :: 0 <= i < |bs| ==> Buildable(bs[i], supported)
    ensures BenchmarksDecls(bs, root, supported).Ok? ==>
      var ds := BenchmarksDecls(bs, root, supported).value;
      Count(ds, BlockStart) == PairCount(bs, supported) && Count(ds, Header) == 0
  {
    if |bs| > 0 {
      var b := bs[|bs| - 1];
      BenchmarksDeclsShape(bs[..|bs| - 1], root, supported);
      ArchitectureDeclsShape(b, ArchitectureList(b.Architectures()), root, supported);
    }
  }

  /**
    The output opens with the header, which occurs nowhere else, and holds one block
    per (benchmark, architecture) pair.
   */
  lemma CMakeDeclsShape(bs: seq<Benchmark>, root: string, supported: string)
    requires forall i :: 0 <= i < |bs| ==> Buildable(bs[i], supported)
    ensures CMakeDecls(bs, root, supported).Ok? ==>
      var ds := CMakeDecls(bs, root, supported).value;
      && ds[0] == Header && Count(ds, Header) == 1
      && Count(ds, BlockStart) == PairCount(bs, supported)
  {
    BenchmarksDeclsShape(bs, root, supported);
  }

  // ---------------------------------------------------------------------------
  // When generation fails.
  // ---------------------------------------------------------------------------

  /** The position of the first dependency that is neither `pthreads` nor `openmp`, if any. */
  function FirstUnknown(deps: seq<(string, Value)>): (r: Option<nat>)
    ensures r.None? <==> forall i :: 0 <= i < |deps| ==> KnownDependency(deps[i].0)
    ensures r.Some? ==> r.value < |deps| && !KnownDependency(deps[r.value].0)
    ensures r.Some? ==> forall k :: 0 <= k < r.value ==> KnownDependency(deps[k].0)
  {
    if |deps| == 0 then None
    else if !KnownDependency(deps[0].0) then Some(0)
    else
      match FirstUnknown(deps[1..])
      case None => None
      case Some(j) => Some(j + 1)
  }

  /** Dispatch fails exactly when some dependency is unknown, and names the first one. */
  lemma DispatchFailsOnFirstUnknown(b: Benchmark, deps: seq<(string, Value)>, target: string, toggle: string, reasons: string)
    requires IsText(b.Language())
    ensures DependencyDeclsOf(b, deps, target, toggle, reasons).Err? <==> FirstUnknown(deps).Some?
    ensures DependencyDeclsOf(b, deps, target, toggle, reasons).Err? ==>
      DependencyDeclsOf(b, deps, target, toggle, reasons).error == UnhandledDependency(deps[FirstUnknown(deps).value].0)
  {
    DependencyDispatch(b, deps, target, toggle, reasons);
    DependencyDispatchError(b, deps, target, toggle, reasons);
  }

  /** A benchmark fails to generate when one of its architectures is enabled and it has an unknown dependency. */
  predicate Fails(b: Benchmark, supported: string)
    requires Buildable(b, supported)
  {
    HasEnabledArchitecture(ArchitectureList(b.Architectures()), supported)
      && FirstUnknown(b.Dependencies().value.entries).Some?
  }

  /** The error such a benchmark raises: its first unknown dependency, whatever the architecture. */
  function UnknownDependencyError(b: Benchmark, supported: string): BuildError
    requires Buildable(b, supported) && Fails(b, supported)
  {
    var deps := b.Dependencies().value.entries;
    UnhandledDependency(deps[FirstUnknown(deps).value].0)
  }

  /** A block fails exactly for an enabled architecture of a benchmark with an unknown dependency. */
  lemma BlockDeclsError(b: Benchmark, arch: string, root: string, supported: string)
    requires IsText(b.Name()) && (ArchEnabled(arch, supported) ==> Shaped(b))
    ensures BlockDecls(b, arch, root, supported).Err? <==>
      ArchEnabled(arch, supported) && FirstUnknown(b.Dependencies().value.entries).Some?
    ensures BlockDecls(b, arch, root, supported).Err? ==>
      var deps := b.Dependencies().value.entries;
      BlockDecls(b, arch, root, supported).error == UnhandledDependency(deps[FirstUnknown(deps).value].0)
  {
    if ArchEnabled(arch, supported) {
      DispatchFailsOnFirstUnknown(b, b.Dependencies().value.entries, TargetName(b.Name().value.s, arch),
                                  ToggleVariable(b.Name().value.s), ReasonsVariable);
    }
  }

  lemma {:induction false} ArchitectureDeclsError(b: Benchmark, archs: seq<string>, root: string, supported: string)
    requires IsText(b.Name()) && ShapedWhereEnabled(b, archs, supported)
    ensures ArchitectureDecls(b, archs, root, supported).Err? <==>
      HasEnabledArchitecture(archs, supported) && FirstUnknown(b.Dependencies().value.entries).Some?
    ensures ArchitectureDecls(b, archs, root, supported).Err? ==>
      var deps := b.Dependencies().value.entries;
      ArchitectureDecls(b, archs, root, supported).error == UnhandledDependency(deps[FirstUnknown(deps).value].0)
  {
    if |archs| > 0 {
      var prefix := archs[..|archs| - 1];
      var last := archs[|archs| - 1];
      ArchitectureDeclsError(b, prefix, root, supported);
      BlockDeclsError(b, last, root, supported);
      if HasEnabledArchitecture(archs, supported) && !ArchEnabled(last, supported) {
        var i :| 0 <= i < |archs| && ArchEnabled(archs[i], supported);
        assert prefix[i] == archs[i];
      }
      if HasEnabledArchitecture(prefix, supported) {
        var i :| 0 <= i < |prefix| && ArchEnabled(prefix[i], supported);
        assert archs[i] == prefix[i];
      }
    }
  }

  /**
    One benchmark's output fails exactly when it has an enabled architecture and an
    unknown dependency, and then carries that benchmark's error.
   */
  lemma BenchmarkDeclsError(b: Benchmark, root: string, supported: string)
    requires Buildable(b, supported)
    ensures BenchmarkDecls(b, root, supported).Err? <==> Fails(b, supported)
    ensures BenchmarkDecls(b, root, supported).Err? ==> BenchmarkDecls(b, root, supported).error == UnknownDependencyError(b, supported)
  {
    ArchitectureDeclsError(b, ArchitectureList(b.Architectures()), root, supported);
  }

  /** Pieces of output joined in order; the first error wins. */
  function ConcatAll(rs: seq<Result<seq<Decl>, BuildError>>): Result<seq<Decl>, BuildError>
  {
    if |rs| == 0 then Ok([]) else Concat(ConcatAll(rs[..|rs| - 1]), rs[|rs| - 1])
  }

  /** Joining succeeds exactly when every piece does, and otherwise fails with the first failing piece's error. */
  lemma {:induction false} ConcatAllOutcome(rs: seq<Result<seq<Decl>, BuildError>>)
    ensures ConcatAll(rs).Ok? <==> forall i :: 0 <= i < |rs| ==> rs[i].Ok?
    ensures ConcatAll(rs).Err? ==>
      exists i :: 0 <= i < |rs| && rs[i].Err? && (forall k :: 0 <= k < i ==> rs[k].Ok?) && ConcatAll(rs).error == rs[i].error
  {
    if |rs| > 0 {
      var prefix := rs[..|rs| - 1];
      ConcatAllOutcome(prefix);
      assert forall k :: 0 <= k < |prefix| ==> prefix[k] == rs[k];
    }
  }

  /** The output of each benchmark on its own. */
  function BenchmarkOutcomes(bs: seq<Benchmark>, root: string, supported: string): (rs: seq<Result<seq<Decl>, BuildError>>)
    requires forall i :: 0 <= i < |bs| ==> Buildable(bs[i], supported)
    ensures |rs| == |bs|
  {
    seq(|bs|, i requires 0 <= i < |bs| => BenchmarkDecls(bs[i], root, supported))
  }

  lemma {:induction false} BenchmarksDeclsAsOutcomes(bs: seq<Benchmark>, root: string, supported: string)
    requires forall i :: 0 <= i < |bs| ==> Buildable(bs[i], supported)
    ensures BenchmarksDecls(bs, root, supported) == ConcatAll(BenchmarkOutcomes(bs, root, supported))
  {
    if |bs| > 0 {
      var prefix := bs[..|bs| - 1];
      BenchmarksDeclsAsOutcomes(prefix, root, supported);
      assert BenchmarkOutcomes(bs, root, supported)[..|bs| - 1] == BenchmarkOutcomes(prefix, root, supported);
    }
  }

  /**
    Generation succeeds exactly when no benchmark has both an enabled architecture
    and an unknown dependency; otherwise it raises the error of the first such
    benchmark, naming that benchmark's first unknown dependency.
   */
  lemma CMakeDeclsError(bs: seq<Benchmark>, root: string, supported: string)
    requires forall i :: 0 <= i < |bs| ==> Buildable(bs[i], supported)
    ensures CMakeDecls(bs, root, supported).Ok? <==> forall i :: 0 <= i < |bs| ==> !Fails(bs[i], supported)
    ensures CMakeDecls(bs, root, supported).Err? ==>
      exists i :: 0 <= i < |bs| && Fails(bs[i], supported) && (forall k :: 0 <= k < i ==> !Fails(bs[k], supported))
        && CMakeDecls(bs, root, supported).error == UnknownDependencyError(bs[i], supported)
  {
    var rs := BenchmarkOutcomes(bs, root, supported);
    BenchmarksDeclsAsOutcomes(bs, root, supported);
    ConcatAllOutcome(rs);
    forall i | 0 <= i < |bs|
      ensures rs[i].Err? <==> Fails(bs[i], supported)
      ensures rs[i].Err? ==> rs[i].error == UnknownDependencyError(bs[i], supported)
    {
      BenchmarkDeclsError(bs[i], root, supported);
    }
  }
}
