# A verified model of the svcb benchmark-suite generator

svcb describes SV-COMP style verification benchmarks in YAML specification
documents, which a JSON schema can check.

This Dafny project models three parts of it:

- **Variant expansion** (`benchmark.dfy`, module `BenchmarkModel`). It normalises
  one specification into a list of `Benchmark` objects, one per variant. Each gets
  the name `{name}_{variant}`, the global defines followed by the variant's own, no
  `variants` key, and the constructor's defaults for `comments`, `defines` and
  `dependencies`.
- **Schema-version gatekeeping and upgrade** (`schema.dfy`, module `Schema`).
  `schema_version` is checked in order: present, an integer, not negative, equal to
  the schema's `__version__`. Only then does structural validation run. Upgrading
  has three outcomes: the same version, a refused downgrade, and a migration that
  does not exist.
- **CMake declaration generation** (`build.dfy`, module `Build`). Each (benchmark,
  architecture) pair gets one of two blocks:
  - a status message, when the architecture is neither `any` nor the compiler's;
  - otherwise a guarded target. In order it holds the toggle and the reasons list,
    the dependency guards, the language-standard guard, `add_executable` with the
    sources, the runtime link, the defines, the standard flags, the dependency
    attach fragments, and the `else()` warning.

  Dependency dispatch accepts only `pthreads` and `openmp`.

Supporting modules:

- `documents.dfy` (`Documents`): YAML values, and Python dicts as insertion-ordered
  sequences of entries.
- `results.dfy` (`Results`): `Option`, `Result` and `Outcome`. Python exceptions
  become error values.
- `sequences.dfy` (`Sequences`): a `Map` over sequences and associativity of
  concatenation.
- `cmake_semantics.dfy` (`CMakeSemantics`): an interpreter for the generated
  declarations. It is an independent reference for what the output means. It runs
  the `set`, `list(APPEND …)`, `if`/`else()` and `message` declarations against the
  capabilities the build provides (the conditions `CMAKE_USE_PTHREADS_INIT`,
  `OPENMP_FOUND` and `HAS_STD_<tag>`), given as the parameter `caps`. It proves what
  gets reported: a target is built exactly when every requirement holds, and
  otherwise the unmet reasons are listed in order.

Form of the model:

- The `Benchmark` constructor, which fills in defaults, is a constructor whose
  postcondition is the defaulted data.
- The loops of the source become methods with loops, proved against specification
  functions:
  - `getBenchmarks`' loop over the variants;
  - `generateCMakeDecls`' nested loops over benchmarks, architectures, sources,
    defines and dependency pairs;
  - `generate_dependency_decls`' loop.
- `Benchmark` is a class whose data is fixed once the constructor has added the
  defaults. After construction the source only reads it.
- The schema checks and the fragment builders are pure, so they are functions.
- The generated CMake is modelled as a sequence of abstract declarations
  (`Build.Decl`), one per fragment the generator appends. Each constructor's comment
  gives the CMake text it stands for.

Two consequences of the code that the model keeps:

- A target is named `{name}.{arch}` with the architecture as iterated, so
  `architectures: any` gives `{name}.any` (svcb/svcb/build.py:36-44).
- Only `pthreads` and `openmp` are accepted as dependencies; any other name raises
  an `Exception` naming it, the model's `UnhandledDependency`
  (svcb/svcb/build.py:131-150).

## Model

| member | source | states |
|---|---|---|
| BenchmarkModel.FindFrom | svcb/svcb/benchmark.py:70 | `str.find`: -1 exactly when the pattern occurs at no index at or after the start, otherwise the first such index |
| BenchmarkModel.WithDefaults | svcb/svcb/benchmark.py:24-30 | the defaulted data has `comments`, `defines` and `dependencies`; a missing one is `""`, `[]` or `{}`, a present one keeps its value, and every other key is unchanged |
| BenchmarkModel.WithDefaultsKeepsOrder | svcb/svcb/benchmark.py:25-30 | the defaults are appended: the keys already present keep their order, as a prefix |
| BenchmarkModel.Benchmark.constructor | svcb/svcb/benchmark.py:19-30 | requires data without `variants`; the stored data is the input with the defaults added |
| BenchmarkModel.LanguageFamilies | svcb/svcb/benchmark.py:66-70 | `Benchmark.IsLanguageCXX` and `Benchmark.IsLanguageC`: `isLanguageC` is exactly the negation of `isLanguageCXX`, and `isLanguageCXX` holds exactly when the language contains two consecutive `+` |
| BenchmarkModel.VariantSpec | svcb/svcb/benchmark.py:83-91 | one variant's copy: no `variants`, name `{name}_{variant}`, defines = global defines ++ the variant's, every other key as in the specification |
| BenchmarkModel.ExpandVariantsAt | svcb/svcb/benchmark.py:81-92 | one benchmark per variant, the i-th from the i-th variant in iteration order |
| BenchmarkModel.SingleExpansion | svcb/svcb/benchmark.py:93-97 | without variants: exactly one benchmark, whose data is the specification plus defaults, with its name unchanged and its keys in order |
| BenchmarkModel.VariantCount | svcb/svcb/benchmark.py:81-92 | with variants: as many benchmarks as variants (none for an empty mapping) |
| BenchmarkModel.VariantDataName | svcb/svcb/benchmark.py:80-91 | a variant benchmark is named `{name}_{variant}` |
| BenchmarkModel.VariantDataDefines | svcb/svcb/benchmark.py:77-90 | its defines are the specification's (or `[]`) followed by the variant's, in order |
| BenchmarkModel.VariantDataHasNoVariants | svcb/svcb/benchmark.py:89 | a variant benchmark has no `variants` key |
| BenchmarkModel.VariantDataDefaults | svcb/svcb/benchmark.py:25-30 | its `comments` and `dependencies` are the specification's or the constructor's defaults |
| BenchmarkModel.VariantDataOtherKeys | svcb/svcb/benchmark.py:83-91 | every other key has the specification's value |
| BenchmarkModel.VariantExpansion | svcb/svcb/benchmark.py:77-92 | `ExpandedData`: with variants, each of the facts above holds for the i-th benchmark of the expansion |
| BenchmarkModel.DataOfSnoc | svcb/svcb/benchmark.py:92 | appending the next variant's benchmark keeps the list in step with the expansion |
| BenchmarkModel.UnaliasedSnoc | svcb/svcb/benchmark.py:92 | appending a new object keeps the benchmarks pairwise distinct |
| BenchmarkModel.NewVariantBenchmark | svcb/svcb/benchmark.py:82-92 | the loop body yields a fresh Benchmark whose data is the variant's defaulted copy |
| BenchmarkModel.GetBenchmarks | svcb/svcb/benchmark.py:72-98 | the benchmarks' data is the expansion, in order; every benchmark is fresh and distinct; the input specification is a value and is never changed |
| Documents.GetEntry | svcb/svcb/benchmark.py:38-64 | `Get` (`d[k]`): in a dict with unique keys, each entry's key looks up that entry's value |
| Documents.HasKeyIffInKeys | svcb/svcb/benchmark.py:75 | `HasKey` (`k in d`): holds exactly when `k` is among the keys iterated over |
| Documents.Put | svcb/svcb/benchmark.py:26-30 | `d[k] = v`: `k` maps to `v` afterwards and every other key is unchanged |
| Documents.PutKeys | svcb/svcb/benchmark.py:90-91 | assignment keeps an existing key's position and appends a new key |
| Documents.PutKeepsUniqueKeys | svcb/svcb/benchmark.py:90-91 | assignment keeps keys unique |
| Documents.Delete | svcb/svcb/benchmark.py:89 | `del d[k]`: `k` is absent afterwards and every other key is unchanged |
| Documents.DeleteKeepsUniqueKeys | svcb/svcb/benchmark.py:89 | deletion keeps keys unique |
| Schema.NatToDecimal | svcb/svcb/schema.py:84-87 | `str` of a natural number: non-empty decimal digits, beginning with `0` only for `"0"` itself |
| Schema.DecimalRoundTrip | svcb/svcb/schema.py:84-87 | reading the printed digits back gives the number |
| Schema.MismatchCarriesVersions | svcb/svcb/schema.py:82-87 | the mismatch message is the fixed prefix, the declared version, the fixed middle, the schema's version and `)`, and both numbers read back from their slices |
| Schema.ValidatePassIff | svcb/svcb/schema.py:58-95 | `Validate` (`validateBenchmarkSpecification`): validation passes exactly when the declared version is an integer equal to the schema's (non-negative) version and structural validation finds nothing |
| Schema.VersionCheckOrder | svcb/svcb/schema.py:73-87 | missing, non-integer, negative and mismatched versions each fail with their own message and no path, in that order |
| Schema.VersionChecksPrecedeStructure | svcb/svcb/schema.py:70-91 | with a wrong version, the verdict is a path-less failure that does not depend on the schema's structural check |
| Schema.StructuralFailure | svcb/svcb/schema.py:89-95 | `ValidationError` (`BenchmarkSpecificationValidationError`): an error with a schema path arises exactly when every version check passed and structural validation failed, and it carries that failure's message and path |
| Schema.UpgradeOutcomes | svcb/svcb/schema.py:99-121 | `UpgradeToVersion` (`upgradeBenchmarkSpeciationToVersion`): equal versions give back the specification; a newer one is a downgrade error; an older one always fails |
| Schema.UpgradeToSchemaSound | svcb/svcb/schema.py:123-137 | `UpgradeToSchema` (`upgradeBenchmarkSpecificationToSchema`): the result, when there is one, is the specification itself and passes validation; it succeeds exactly when the specification validates; a validation failure after upgrading is structural |
| Build.Upper | svcb/svcb/build.py:52 | `upper()`: same length, and no lower-case letter remains |
| Build.UpperProperties | svcb/svcb/build.py:52 | upper-casing changes only lower-case letters, each to its capital, and is idempotent |
| Build.LangTag | svcb/svcb/build.py:65 | `language.replace('+', 'X').upper()`: same length, each `+` becomes `X` and every other character is upper-cased, so no `+` and no lower-case letter remains |
| Build.LangTagExamples | svcb/svcb/build.py:65 | `c99`→`C99`, `c11`→`C11`, `c++11`→`CXX11`, `gnu++14`→`GNUXX14` |
| Build.Join | svcb/svcb/build.py:83 | `os.path.join`: an absolute path is kept; otherwise the result starts with the root and ends with the path |
| Build.OpenMPFlags | svcb/svcb/build.py:167-187 | the OpenMP fragment never fails (the unknown-language branch is unreachable) and uses the C++ flags exactly when the language contains `++` |
| Build.DependencyDeclForOk | svcb/svcb/build.py:131-150 | one dependency name dispatches exactly when it is `pthreads` or `openmp`, and otherwise raises an `Exception` naming it (the model's `UnhandledDependency(name)`) |
| Build.DependencyDispatch | svcb/svcb/build.py:124-152 | `DependencyDeclFor` and `DependencyDeclsOf`: dispatch succeeds exactly when every name is known, and then yields one pair per dependency, in order |
| Build.DependencyDispatchError | svcb/svcb/build.py:128-152 | a failed dispatch names the first unknown dependency |
| Build.GenerateDependencyDecls | svcb/svcb/build.py:124-152 | the loop computes the dispatch of the benchmark's dependencies, stopping at the first error |
| Build.ErrorPersists | svcb/svcb/build.py:150 | once dispatch fails on a prefix, it fails with that error on the whole list |
| Build.EmitGuards | svcb/svcb/build.py:59-61 | appends the guards of the pairs, in order |
| Build.EmitSources | svcb/svcb/build.py:82-83 | appends one line per source, joined to the root, in order |
| Build.EmitDefines | svcb/svcb/build.py:91-98 | appends the definitions group only when there are defines, one line per define in order |
| Build.EmitAttaches | svcb/svcb/build.py:108-109 | appends the attach fragments, in order |
| Build.EmitBlock | svcb/svcb/build.py:42-121 | the loop body over architectures computes the block of one (benchmark, architecture) pair |
| Build.ArchitectureErrorPersists | svcb/svcb/build.py:42-57 | once a block has failed, the benchmark fails with that error |
| Build.BenchmarkErrorPersists | svcb/svcb/build.py:31-57 | once a benchmark has failed, the whole generation fails with that error |
| Build.EmitBenchmark | svcb/svcb/build.py:35-121 | the loop over one benchmark's architectures (`'any'` read as `{'any'}`) computes its blocks, in order |
| Build.GenerateCMakeDecls | svcb/svcb/build.py:22-122 | the generator computes the header followed by the blocks of every benchmark in order, or the first error |
| Build.ConcatAssociative | svcb/svcb/build.py:31-122 | appending outputs in which the first error wins is associative |
| Build.DependencyDeclShape | svcb/svcb/build.py:154-187 | each dependency guard disables the target's toggle and records a reason in the reasons list; each attachment is about the target |
| Build.DependencyDeclsShape | svcb/svcb/build.py:124-152 | every pair of a dispatch has that shape |
| Build.GuardsShape | svcb/svcb/build.py:59-61 | the guards are all toggle-disabling guards on the target's toggle |
| Build.AttachesShape | svcb/svcb/build.py:108-109 | the attachments all concern the target |
| Build.SourceDeclsShape | svcb/svcb/build.py:82-83 | one source line per source, the i-th being the i-th source joined to the root |
| Build.DefinitionsShape | svcb/svcb/build.py:95-97 | one line per define, the i-th being the i-th define |
| Build.EnabledBlockShape | svcb/svcb/build.py:43-121 | `EnabledBody`: an enabled block starts with `####`, holds it only once, and never holds the header |
| Build.BlockShape | svcb/svcb/build.py:42-121 | `BlockDecls`: every block a pair contributes starts with `####`, holds it only once, and never holds the header |
| Build.UnsupportedArchitecture | svcb/svcb/build.py:45-48 | for an architecture neither `any` nor supported, the block is `####` and the status message alone: no toggle, no guard, no `if`, no executable |
| Build.ArchitectureDeclsShape | svcb/svcb/build.py:42-121 | `ArchitectureDecls`: a benchmark's output holds one `####` per architecture and no header |
| Build.BenchmarksDeclsShape | svcb/svcb/build.py:31-121 | `BenchmarksDecls`: the blocks of all benchmarks hold one `####` per (benchmark, architecture) pair |
| Build.CMakeDeclsShape | svcb/svcb/build.py:30-122 | `CMakeDecls`: the output begins with the header, which occurs once, and holds one `####` per (benchmark, architecture) pair |
| CMakeSemantics.PthreadsRun | svcb/svcb/build.py:154-165 | `PthreadsDecl`: the guard keeps the toggle exactly when `CMAKE_USE_PTHREADS_INIT` holds and otherwise appends "Pthreads library not available"; the attachment links `${CMAKE_THREAD_LIBS_INIT}` and is quiet |
| CMakeSemantics.OpenMPRun | svcb/svcb/build.py:167-187 | `OpenMPDecl`: never fails for a text language; the guard keeps the toggle exactly when `OPENMP_FOUND` holds and otherwise appends "OpenMP not available"; the two attachments are quiet |
| Build.ToggleVariable | svcb/svcb/build.py:52 | `ENABLE_TARGET_` followed by the benchmark name upper-cased, character by character (one toggle for all of a benchmark's architectures) |
| Build.TargetName | svcb/svcb/build.py:44 | the benchmark name, a `.`, then the architecture |
| Build.TargetNamesDistinct | svcb/svcb/build.py:44 | two architectures of one benchmark give the same target name exactly when they are the same |
| Build.FirstUnknown | svcb/svcb/build.py:129-150 | the position of the first dependency neither `pthreads` nor `openmp`: none exactly when all are known |
| Build.DispatchFailsOnFirstUnknown | svcb/svcb/build.py:124-152 | dispatch fails exactly when some dependency is unknown, and then names the first one |
| Build.BlockDeclsError | svcb/svcb/build.py:45-57 | a block fails exactly for an enabled architecture of a benchmark with an unknown dependency; unsupported architectures never dispatch |
| Build.ArchitectureDeclsError | svcb/svcb/build.py:42-57 | a benchmark's blocks fail exactly when it has an enabled architecture and an unknown dependency |
| Build.BenchmarkDeclsError | svcb/svcb/build.py:31-57 | the same for one benchmark, with the error naming its first unknown dependency |
| Build.ConcatAllOutcome | svcb/svcb/build.py:31-122 | joining outputs succeeds exactly when every piece does, and otherwise carries the first failing piece's error |
| Build.BenchmarksDeclsAsOutcomes | svcb/svcb/build.py:31-122 | the blocks of all benchmarks are each benchmark's output, joined in order |
| Build.CMakeDeclsError | svcb/svcb/build.py:22-152 | generation succeeds exactly when no benchmark both has an enabled architecture and an unknown dependency; otherwise it raises the first such benchmark's error |
| CMakeSemantics.RunAppend | svcb/svcb/build.py:30-122 | running concatenated declarations is running them one after the other |
| CMakeSemantics.QuietRun | svcb/svcb/build.py:80-109 | sources, links, definitions and options change no variable and report nothing |
| CMakeSemantics.UnmetEmpty | svcb/svcb/build.py:53-78 | no reason is recorded exactly when every requirement's condition holds |
| CMakeSemantics.DependencyGuards | svcb/svcb/build.py:154-175 | each dependency's guard tests that dependency's condition (`CMAKE_USE_PTHREADS_INIT`, `OPENMP_FOUND`) with its reason |
| CMakeSemantics.GuardStep | svcb/svcb/build.py:156-160 | one guard clears the toggle and appends its reason exactly when its condition fails |
| CMakeSemantics.GuardsRun | svcb/svcb/build.py:59-61 | the guards leave the toggle set exactly when nothing is unmet, and the reasons list holds the unmet reasons in order |
| CMakeSemantics.PrologueRun | svcb/svcb/build.py:53-55 | the toggle starts set and the reasons list empty |
| CMakeSemantics.IfEnabledStep | svcb/svcb/build.py:78 | the guarded branch runs exactly when the toggle is set |
| CMakeSemantics.ExecutableStep | svcb/svcb/build.py:80 | `add_executable` reports the target built only inside a running branch |
| CMakeSemantics.ElseStep | svcb/svcb/build.py:112-121 | the `else()` branch reports the target not built with the recorded reasons, exactly when the branch did not run |
| CMakeSemantics.BodyRun | svcb/svcb/build.py:53-121 | a block body of the generated shape reports exactly one outcome: built when nothing is unmet, otherwise not built with the unmet reasons |
| CMakeSemantics.QuietPieces | svcb/svcb/build.py:82-109 | the sources, definitions and attachments of a target are quiet |
| CMakeSemantics.EnabledBlockRun | svcb/svcb/build.py:43-121 | an enabled block reports its target built when every requirement holds, and otherwise not built with the unmet reasons: the dependencies' first, then the language standard's |
| CMakeSemantics.BlockEventMeaning | svcb/svcb/build.py:45-121 | a target is reported unsupported exactly when its architecture is not enabled, built exactly when it is enabled and every requirement holds, and otherwise not built with a non-empty list of reasons |
| CMakeSemantics.TargetRequirementsAt | svcb/svcb/build.py:59-76 | a target's requirements are one per dependency, in order, then the language standard's |
| CMakeSemantics.BlockRun | svcb/svcb/build.py:42-121 | running one block reports exactly its event |
| CMakeSemantics.ArchitectureEvents | svcb/svcb/build.py:42 | one event per architecture |
| CMakeSemantics.ArchitectureRun | svcb/svcb/build.py:42-121 | a benchmark's blocks report one event per architecture, in order |
| CMakeSemantics.DispatchableUnlessFails | svcb/svcb/build.py:45-57 | a benchmark that does not fail to generate can generate every enabled block |
| CMakeSemantics.BenchmarkEvents | svcb/svcb/build.py:42 | one event per architecture of the benchmark |
| CMakeSemantics.ProgramEventsCount | svcb/svcb/build.py:31-43 | one event per (benchmark, architecture) pair |
| CMakeSemantics.ReportsAppend | svcb/svcb/build.py:31-122 | outputs that each report their events report the events one after the other when concatenated |
| CMakeSemantics.ConcatAllReports | svcb/svcb/build.py:31-122 | the joined outputs report the concatenated events |
| CMakeSemantics.BenchmarkRun | svcb/svcb/build.py:31-121 | a benchmark that does not fail generates output that reports its events |
| CMakeSemantics.HeaderReports | svcb/svcb/build.py:30 | the header reports nothing |
| CMakeSemantics.CMakeRun | svcb/svcb/build.py:22-122 | when no benchmark fails to generate, configuring the output reports exactly one event per (benchmark, architecture) pair, in order, each determined by the requirements and the capabilities |

## Left out

- Reading YAML files and the schema document (`loadBenchmarkSpecification`,
  `getSchema`, svcb/svcb/schema.py:33-49): file I/O. A schema is a value carrying its
  `__version__`.
- `getAllArchitectures` (svcb/svcb/schema.py:51-55): a fixed lookup path into the
  external schema document.
- The internals of `jsonschema.validate` (svcb/svcb/schema.py:91): a foreign library.
  Each schema carries it as a function from a specification to an optional
  violation (message and absolute schema path).
- The existence checks on the source root (svcb/svcb/build.py:28-29): a file-system
  query. `GenerateCMakeDecls` takes it as the flag `sourceRootIsDirectory`.
  `os.path.join` is modelled for POSIX paths only.
- Logging, the `pprint` form of a benchmark and `getInternalRepr`: diagnostics.
- The exact text and whitespace of the CMake output. Each fragment is an abstract
  declaration. The CMake semantics interpret only the declarations the generator
  emits, and model the list of reasons without the message concatenation loop.
- The values of the CMake conditions (`CMAKE_USE_PTHREADS_INIT`, `OPENMP_FOUND`,
  `HAS_STD_<tag>`): they are set by the surrounding build, and are the parameter
  `caps`.
- Build.Upper: upper-cases only ASCII letters. Python's `str.upper` handles all of
  Unicode.
- BenchmarkModel.Benchmark.constructor: Python's `__init__` stores the dict it is
  given and adds the defaults to it (svcb/svcb/benchmark.py:22-30), so a direct
  caller's dict changes too. The model's data is a value, so this is not captured.
- The `categories` accessor (svcb/svcb/benchmark.py:62-64): the modelled core never
  reads it.
- `BenchmarkSpecificationValidationError.__str__` (svcb/svcb/schema.py:30-31): it
  returns the message, which the model's error carries as a field.
- Floating-point values are carried as reals and never inspected.
- Schema.UpgradeToVersion: the missing migration raises an undefined name
  (`NotImplementedException`, svcb/svcb/schema.py:121). It is modelled as the error
  `NotImplemented`.
- Build.Buildable and BenchmarkModel.Expandable: generation and expansion require
  the field shapes the source asserts or the schema guarantees (a string name,
  architectures `'any'` or a list of strings, lists of strings for sources and
  defines, a mapping of dependencies, lists for variant defines). The ill-typed
  inputs on which Python would raise a `TypeError` or `KeyError` are not modelled.
- Deep copies are value semantics: a `Dict` is a value, so the model cannot express
  the aliasing that `copy.deepcopy` prevents. It states instead that each Benchmark
  is a fresh object.
- The inner loops of `generateCMakeDecls` are methods of their own
  (`EmitGuards`, `EmitSources`, `EmitDefines`, `EmitAttaches`, `EmitBlock`,
  `EmitBenchmark`). The generator builds a sequence of declarations instead of
  concatenating strings.
