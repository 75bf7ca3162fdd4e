/**
  What the generated CMake declarations do when CMake runs them.

  A small interpreter over `Build.Decl`: CMake variables set by the script
  (`set`, `list(APPEND …)`), the one level of `if (toggle) … else() … endif()`
  each target block opens, and the outcome CMake reports for each target. The
  conditions the script only reads (`CMAKE_USE_PTHREADS_INIT`, `OPENMP_FOUND`,
  `HAS_STD_<tag>`) are set by the surrounding build and are a parameter `caps`.
 */
module CMakeSemantics {
  import opened Results
  import opened Documents
  import opened BenchmarkModel
  import opened Build
  import opened Sequences

  /** What configuring the build reports about one target. */
  datatype Event =
    | Unsupported(target: string)                  // 'Architecture not supported by compiler'
    | Built(target: string)                        // add_executable ran
    | NotBuilt(target: string, reasons: seq<string>) // 'Not building target … due to …'

  /**
    The interpreter's state: boolean and list variables the script set, whether
    the current branch runs, and what has been reported so far.
   */
  datatype Machine = Machine(flags: map<string, bool>, lists: map<string, seq<string>>, active: bool, events: seq<Event>)

  const Initial := Machine(map[], map[], true, [])

  /** `if (v)` on a boolean variable; an unset variable is false. */
  function Flag(m: Machine, v: string): bool
  {
    v in m.flags && m.flags[v]
  }

  /** `${v}` of a list variable; an unset variable is the empty list. */
  function ListValue(m: Machine, v: string): seq<string>
  {
    if v in m.lists then m.lists[v] else []
  }

  /** One declaration. Outside a running branch only the closing `else() … endif()` has an effect. */
  function Step(m: Machine, d: Decl, caps: string -> bool): Machine
  {
    if !m.active then
      if d.ElseWarnDisabled? then
        m.(active := true, events := m.events + [NotBuilt(d.target, ListValue(m, ReasonsVariable))])
      else m
    else
      match d
      case ArchNotSupported(target) => m.(events := m.events + [Unsupported(target)])
      case SetTrue(variable) => m.(flags := m.flags[variable := true])
      case SetEmpty(variable) => m.(lists := m.lists[variable := []])
      case DisableUnless(condition, toggle, reasons, reason) =>
        if caps(condition) then m
        else m.(flags := m.flags[toggle := false], lists := m.lists[reasons := ListValue(m, reasons) + [reason]])
      case IfEnabled(toggle) => m.(active := Flag(m, toggle))
      case AddExecutable(target) => m.(events := m.events + [Built(target)])
      case _ => m
  }

  /** The declarations in order. */
  function Run(m: Machine, ds: seq<Decl>, caps: string -> bool): Machine
  {
    if |ds| == 0 then m else Step(Run(m, ds[..|ds| - 1], caps), ds[|ds| - 1], caps)
  }

  /** Running two scripts one after the other is running their concatenation. */
  lemma {:induction false} RunAppend(m: Machine, a: seq<Decl>, b: seq<Decl>, caps: string -> bool)
    ensures Run(m, a + b, caps) == Run(Run(m, a, caps), b, caps)
  {
    if |b| == 0 {
      assert a + b == a;
    } else {
      assert (a + b)[..|a + b| - 1] == a + b[..|b| - 1];
      RunAppend(m, a, b[..|b| - 1], caps);
    }
  }

  /** Declarations that change no variable and report nothing. */
  predicate Quiet(d: Decl)
  {
    d.Header? || d.BlockStart? || d.SourceFile? || d.CloseParen? || d.LinkLibraries?
      || d.CompileDefinitions? || d.Definition? || d.CompileOptions? || d.AppendLinkFlags?
  }

  predicate AllQuiet(ds: seq<Decl>)
  {
    forall d :: d in ds ==> Quiet(d)
  }

  lemma {:induction false} QuietRun(m: Machine, ds: seq<Decl>, caps: string -> bool)
    requires AllQuiet(ds)
    ensures Run(m, ds, caps) == m
  {
    if |ds| > 0 {
      var prefix := ds[..|ds| - 1];
      assert forall d :: d in prefix ==> d in ds;
      QuietRun(m, prefix, caps);
      assert ds[|ds| - 1] in ds;
    }
  }

  // ---------------------------------------------------------------------------
  // What a target needs.
  // ---------------------------------------------------------------------------

  /** A condition the build must meet, and the reason recorded when it does not. */
  datatype Requirement = Requirement(condition: string, reason: string)

  /** The requirement a known dependency adds: `find_package(Threads)` or `find_package(OpenMP)` found it. */
  function DependencyRequirement(name: string): Requirement
    requires KnownDependency(name)
  {
    if name == "pthreads" then Requirement("CMAKE_USE_PTHREADS_INIT", "Pthreads library not available")
    else Requirement("OPENMP_FOUND", "OpenMP not available")
  }

  /** The compiler supports the language standard. */
  function LanguageRequirement(tag: string): Requirement
  {
    Requirement("HAS_STD_" + tag, "Compiler does not support language standard " + tag)
  }

  predicate AllKnown(deps: seq<(string, Value)>)
  {
    forall i :: 0 <= i < |deps| ==> KnownDependency(deps[i].0)
  }

  function DependencyRequirements(deps: seq<(string, Value)>): (rs: seq<Requirement>)
    requires AllKnown(deps)
  {
    if |deps| == 0 then []
    else DependencyRequirements(deps[..|deps| - 1]) + [DependencyRequirement(deps[|deps| - 1].0)]
  }

  /** A target's requirements: its dependencies' in their order, then the language standard's. */
  function Requirements(deps: seq<(string, Value)>, tag: string): seq<Requirement>
    requires AllKnown(deps)
  {
    DependencyRequirements(deps) + [LanguageRequirement(tag)]
  }

  /** The reasons of the requirements the build does not meet, in order. */
  function Unmet(rs: seq<Requirement>, caps: string -> bool): seq<string>
  {
    if |rs| == 0 then []
    else Unmet(rs[..|rs| - 1], caps) + (if caps(rs[|rs| - 1].condition) then [] else [rs[|rs| - 1].reason])
  }

  lemma UnmetSnoc(rs: seq<Requirement>, r: Requirement, caps: string -> bool)
    ensures Unmet(rs + [r], caps) == Unmet(rs, caps) + (if caps(r.condition) then [] else [r.reason])
  {
    assert (rs + [r])[..|rs|] == rs;
  }

  /** Nothing is unmet exactly when every condition holds. */
  lemma {:induction false} UnmetEmpty(rs: seq<Requirement>, caps: string -> bool)
    ensures |Unmet(rs, caps)| == 0 <==> forall i :: 0 <= i < |rs| ==> caps(rs[i].condition)
  {
    if |rs| > 0 {
      var prefix := rs[..|rs| - 1];
      UnmetEmpty(prefix, caps);
      assert forall k :: 0 <= k < |prefix| ==> prefix[k] == rs[k];
    }
  }

  /** The outcome of a block whose requirements left `unmet` reasons. */
  function Outcome(target: string, unmet: seq<string>): Event
  {
    if |unmet| == 0 then Built(target) else NotBuilt(target, unmet)
  }

  /** The guard declaration for a requirement on the target's toggle. */
  function GuardOf(r: Requirement, toggle: string): Decl
  {
    DisableUnless(r.condition, toggle, ReasonsVariable, r.reason)
  }

  // ---------------------------------------------------------------------------
  // Running one block.
  // ---------------------------------------------------------------------------

  /** A successful dispatch guards each dependency with that dependency's requirement. */
  lemma DependencyGuards(b: Benchmark, deps: seq<(string, Value)>, target: string, toggle: string)
    requires IsText(b.Language())
    requires DependencyDeclsOf(b, deps, target, toggle, ReasonsVariable).Ok?
    ensures AllKnown(deps)
    ensures var ds := DependencyDeclsOf(b, deps, target, toggle, ReasonsVariable).value;
      |ds| == |deps| && forall i :: 0 <= i < |deps| ==> ds[i].guard == GuardOf(DependencyRequirement(deps[i].0), toggle)
  {
    DependencyDispatch(b, deps, target, toggle, ReasonsVariable);
    var ds := DependencyDeclsOf(b, deps, target, toggle, ReasonsVariable).value;
    forall i | 0 <= i < |deps|
      ensures ds[i].guard == GuardOf(DependencyRequirement(deps[i].0), toggle)
    {
      OpenMPFlags(b, target, toggle, ReasonsVariable);
    }
  }

  /**
    The pthreads fragment, run: its guard disables the target and records
    "Pthreads library not available" exactly when `CMAKE_USE_PTHREADS_INIT` does not
    hold, and its attachment, the thread library linked to the target, changes nothing.
   */
  lemma PthreadsRun(m: Machine, target: string, toggle: string, caps: string -> bool)
    requires m.active
    ensures var d := PthreadsDecl(target, toggle, ReasonsVariable);
      var n := Step(m, d.guard, caps);
      && d.attach == [LinkLibraries(target, "${CMAKE_THREAD_LIBS_INIT}")] && Run(m, d.attach, caps) == m
      && n.active && n.events == m.events
      && Flag(n, toggle) == (Flag(m, toggle) && caps("CMAKE_USE_PTHREADS_INIT"))
      && ListValue(n, ReasonsVariable) ==
           ListValue(m, ReasonsVariable) + (if caps("CMAKE_USE_PTHREADS_INIT") then [] else ["Pthreads library not available"])
  {
    var d := PthreadsDecl(target, toggle, ReasonsVariable);
    GuardStep(m, Requirement("CMAKE_USE_PTHREADS_INIT", "Pthreads library not available"), toggle, caps);
    QuietRun(m, d.attach, caps);
  }

  /**
    The OpenMP fragment, run: its guard disables the target and records "OpenMP not
    available" exactly when `OPENMP_FOUND` does not hold, and its attachments, the
    OpenMP flags of the language family, change nothing.
   */
  lemma OpenMPRun(m: Machine, b: Benchmark, target: string, toggle: string, caps: string -> bool)
    requires m.active && IsText(b.Language())
    ensures OpenMPDecl(b, target, toggle, ReasonsVariable).Ok?
    ensures var d := OpenMPDecl(b, target, toggle, ReasonsVariable).value;
      var n := Step(m, d.guard, caps);
      && |d.attach| == 2 && Run(m, d.attach, caps) == m
      && n.active && n.events == m.events
      && Flag(n, toggle) == (Flag(m, toggle) && caps("OPENMP_FOUND"))
      && ListValue(n, ReasonsVariable) ==
           ListValue(m, ReasonsVariable) + (if caps("OPENMP_FOUND") then [] else ["OpenMP not available"])
  {
    OpenMPFlags(b, target, toggle, ReasonsVariable);
    var d := OpenMPDecl(b, target, toggle, ReasonsVariable).value;
    GuardStep(m, Requirement("OPENMP_FOUND", "OpenMP not available"), toggle, caps);
    QuietRun(m, d.attach, caps);
  }

  /** One guard: clear the toggle and record the reason unless the condition holds. */
  lemma GuardStep(m: Machine, r: Requirement, toggle: string, caps: string -> bool)
    requires m.active
    ensures var n := Step(m, GuardOf(r, toggle), caps);
      && n.active && n.events == m.events
      && Flag(n, toggle) == (Flag(m, toggle) && caps(r.condition))
      && ListValue(n, ReasonsVariable) == ListValue(m, ReasonsVariable) + (if caps(r.condition) then [] else [r.reason])
  {
  }

  /**
    The guards clear the toggle exactly when some requirement is unmet and append
    the reasons of the unmet ones, in order; nothing is reported.
   */
  lemma {:induction false} GuardsRun(m: Machine, ds: seq<DependencyDecl>, rs: seq<Requirement>, toggle: string, caps: string -> bool)
    requires m.active && |ds| == |rs|
    requires forall i :: 0 <= i < |rs| ==> ds[i].guard == GuardOf(rs[i], toggle)
    ensures var r := Run(m, Guards(ds), caps);
      && r.active && r.events == m.events
      && Flag(r, toggle) == (Flag(m, toggle) && |Unmet(rs, caps)| == 0)
      && ListValue(r, ReasonsVariable) == ListValue(m, ReasonsVariable) + Unmet(rs, caps)
  {
    if |ds| > 0 {
      var n := |ds| - 1;
      GuardsRun(m, ds[..n], rs[..n], toggle, caps);
      var mp := Run(m, Guards(ds[..n]), caps);
      var g := ds[n].guard;
      assert g == GuardOf(rs[n], toggle);
      RunAppend(m, Guards(ds[..n]), [g], caps);
      RunOne(mp, g, caps);
      GuardStep(mp, rs[n], toggle, caps);
      var unmet := if caps(rs[n].condition) then [] else [rs[n].reason];
      assert Unmet(rs, caps) == Unmet(rs[..n], caps) + unmet;
      AppendAssociative(ListValue(m, ReasonsVariable), Unmet(rs[..n], caps), unmet);
    }
  }

  lemma {:induction false} DependencyRequirementsAt(deps: seq<(string, Value)>)
    requires AllKnown(deps)
    ensures |DependencyRequirements(deps)| == |deps|
    ensures forall i :: 0 <= i < |deps| ==> DependencyRequirements(deps)[i] == DependencyRequirement(deps[i].0)
  {
    if |deps| > 0 {
      DependencyRequirementsAt(deps[..|deps| - 1]);
    }
  }

  /** `set(toggle TRUE)` and `set(DISABLED_TARGET_REASONS "")`. */
  lemma PrologueRun(m: Machine, toggle: string, caps: string -> bool)
    requires m.active
    ensures var r := Run(m, [SetTrue(toggle)] + [SetEmpty(ReasonsVariable)], caps);
      r.active && r.events == m.events && Flag(r, toggle) && ListValue(r, ReasonsVariable) == []
  {
    RunAppend(m, [SetTrue(toggle)], [SetEmpty(ReasonsVariable)], caps);
    assert [SetTrue(toggle)][..0] == [] && [SetEmpty(ReasonsVariable)][..0] == [];
  }

  lemma RunOne(m: Machine, d: Decl, caps: string -> bool)
    ensures Run(m, [d], caps) == Step(m, d, caps)
  {
    assert [d][..0] == [];
  }

  /** `if (toggle)`: the branch runs exactly when the toggle is set. */
  lemma IfEnabledStep(m: Machine, toggle: string, caps: string -> bool)
    requires m.active
    ensures var n := Step(m, IfEnabled(toggle), caps);
      n.active == Flag(m, toggle) && n.events == m.events && ListValue(n, ReasonsVariable) == ListValue(m, ReasonsVariable)
  {
  }

  /** `add_executable` reports the target built, inside a running branch only. */
  lemma ExecutableStep(m: Machine, target: string, caps: string -> bool)
    ensures var n := Step(m, AddExecutable(target), caps);
      && n.active == m.active && ListValue(n, ReasonsVariable) == ListValue(m, ReasonsVariable)
      && n.events == if m.active then m.events + [Built(target)] else m.events
  {
  }

  /** `else() message(WARNING …) endif()` reports the recorded reasons when the branch did not run. */
  lemma ElseStep(m: Machine, target: string, caps: string -> bool)
    ensures var n := Step(m, ElseWarnDisabled(target), caps);
      && n.active
      && n.events == if m.active then m.events else m.events + [NotBuilt(target, ListValue(m, ReasonsVariable))]
  {
  }

  /** Appending quiet declarations to a script leaves its run unchanged. */
  lemma QuietSuffix(m: Machine, p: seq<Decl>, q: seq<Decl>, caps: string -> bool)
    requires AllQuiet(q)
    ensures Run(m, p + q, caps) == Run(m, p, caps)
  {
    RunAppend(m, p, q, caps);
    QuietRun(Run(m, p, caps), q, caps);
  }

  /**
    A block body of the generator's shape, over arbitrary pieces: once the guards
    `g` have left the toggle set exactly when `unmet` is empty and the reasons equal
    `unmet`, the body reports one outcome, after the language guard has run.
   */
  lemma BodyRun(m: Machine, toggle: string, target: string, g: seq<Decl>, lr: Requirement,
                src: seq<Decl>, lib: Decl, defs: seq<Decl>, opts: Decl, attach: seq<Decl>,
                caps: string -> bool, unmet: seq<string>)
    requires m.active
    requires AllQuiet(src) && Quiet(lib) && AllQuiet(defs) && Quiet(opts) && AllQuiet(attach)
    requires var m2 := Run(m, [SetTrue(toggle)] + [SetEmpty(ReasonsVariable)], caps);
      var mg := Run(m2, g, caps);
      mg.active && mg.events == m.events && Flag(mg, toggle) == (|unmet| == 0) && ListValue(mg, ReasonsVariable) == unmet
    ensures var body := [SetTrue(toggle)] + [SetEmpty(ReasonsVariable)] + g + [GuardOf(lr, toggle)] + [IfEnabled(toggle)]
      + [AddExecutable(target)] + src + [CloseParen] + [lib] + defs + [opts] + attach + [ElseWarnDisabled(target)];
      var r := Run(m, body, caps);
      r.active && r.events == m.events + [Outcome(target, unmet + (if caps(lr.condition) then [] else [lr.reason]))]
  {
    var p0 := [SetTrue(toggle)] + [SetEmpty(ReasonsVariable)];
    var all := unmet + (if caps(lr.condition) then [] else [lr.reason]);
    var p1 := p0 + g;
    var m1 := Run(m, p1, caps);
    RunAppend(m, p0, g, caps);
    assert m1.active && m1.events == m.events && Flag(m1, toggle) == (|unmet| == 0) && ListValue(m1, ReasonsVariable) == unmet;
    var p2 := p1 + [GuardOf(lr, toggle)];
    var m2 := Step(m1, GuardOf(lr, toggle), caps);
    assert Run(m, p2, caps) == m2 by {
      RunAppend(m, p1, [GuardOf(lr, toggle)], caps);
      RunOne(m1, GuardOf(lr, toggle), caps);
    }
    GuardStep(m1, lr, toggle, caps);
    assert m2.active && m2.events == m.events && Flag(m2, toggle) == (|all| == 0) && ListValue(m2, ReasonsVariable) == all;
    var p3 := p2 + [IfEnabled(toggle)];
    var m3 := Step(m2, IfEnabled(toggle), caps);
    assert Run(m, p3, caps) == m3 by {
      RunAppend(m, p2, [IfEnabled(toggle)], caps);
      RunOne(m2, IfEnabled(toggle), caps);
    }
    IfEnabledStep(m2, toggle, caps);
    var p4 := p3 + [AddExecutable(target)];
    var m4 := Step(m3, AddExecutable(target), caps);
    assert Run(m, p4, caps) == m4 by {
      RunAppend(m, p3, [AddExecutable(target)], caps);
      RunOne(m3, AddExecutable(target), caps);
    }
    ExecutableStep(m3, target, caps);
    var p5 := p4 + src;
    QuietSuffix(m, p4, src, caps);
    var p6 := p5 + [CloseParen];
    QuietSuffix(m, p5, [CloseParen], caps);
    var p7 := p6 + [lib];
    QuietSuffix(m, p6, [lib], caps);
    var p8 := p7 + defs;
    QuietSuffix(m, p7, defs, caps);
    var p9 := p8 + [opts];
    QuietSuffix(m, p8, [opts], caps);
    var p10 := p9 + attach;
    QuietSuffix(m, p9, attach, caps);
    assert Run(m, p10, caps) == m4;
    RunAppend(m, p10, [ElseWarnDisabled(target)], caps);
    RunOne(m4, ElseWarnDisabled(target), caps);
    ElseStep(m4, target, caps);
  }

  /** Sources, definitions and dependency attachments change nothing when run. */
  lemma QuietPieces(target: string, toggle: string, root: string, sources: seq<string>, defines: seq<string>, ds: seq<DependencyDecl>)
    requires forall i :: 0 <= i < |ds| ==> DependencyShaped(ds[i], target, toggle, ReasonsVariable)
    ensures AllQuiet(SourceDecls(root, sources)) && AllQuiet(DefinesDecls(target, defines)) && AllQuiet(Attaches(ds))
  {
    SourceDeclsShape(root, sources);
    DefinitionsShape(defines);
    AttachesShape(ds, target, toggle, ReasonsVariable);
    forall x | x in SourceDecls(root, sources)
      ensures Quiet(x)
    {
      var i :| 0 <= i < |SourceDecls(root, sources)| && SourceDecls(root, sources)[i] == x;
    }
    forall x | x in Definitions(defines)
      ensures Quiet(x)
    {
      var i :| 0 <= i < |Definitions(defines)| && Definitions(defines)[i] == x;
    }
  }

  /**
    The block of an enabled target, over its pieces: it reports the target built
    when every requirement holds and not built, with the unmet reasons, otherwise.
   */
  lemma EnabledBlockRun(m: Machine, target: string, toggle: string, tag: string, root: string,
                        sources: seq<string>, defines: seq<string>, ds: seq<DependencyDecl>, rs: seq<Requirement>, caps: string -> bool)
    requires m.active && |ds| == |rs|
    requires forall i :: 0 <= i < |ds| ==> DependencyShaped(ds[i], target, toggle, ReasonsVariable)
    requires forall i :: 0 <= i < |rs| ==> ds[i].guard == GuardOf(rs[i], toggle)
    ensures var r := Run(m, [BlockStart] + EnabledBody(target, toggle, tag, root, sources, defines, ds), caps);
      r.active && r.events == m.events + [Outcome(target, Unmet(rs + [LanguageRequirement(tag)], caps))]
  {
    PrologueRun(m, toggle, caps);
    GuardsRun(Run(m, [SetTrue(toggle)] + [SetEmpty(ReasonsVariable)], caps), ds, rs, toggle, caps);
    QuietPieces(target, toggle, root, sources, defines, ds);
    BodyRun(m, toggle, target, Guards(ds), LanguageRequirement(tag), SourceDecls(root, sources),
            LinkLibraries(target, RuntimeLibrary), DefinesDecls(target, defines), CompileOptions(target, StdFlags(tag)),
            Attaches(ds), caps, Unmet(rs, caps));
    UnmetSnoc(rs, LanguageRequirement(tag), caps);
    RunAppend(m, [BlockStart], EnabledBody(target, toggle, tag, root, sources, defines, ds), caps);
    RunOne(m, BlockStart, caps);
  }

  // ---------------------------------------------------------------------------
  // Running the whole output.
  // ---------------------------------------------------------------------------

  /** The requirements of an enabled target of `b`. */
  function TargetRequirements(b: Benchmark): seq<Requirement>
    requires Shaped(b) && AllKnown(b.Dependencies().value.entries)
  {
    Requirements(b.Dependencies().value.entries, LangTag(b.Language().value.s))
  }

  /** Every enabled architecture's block can be generated. */
  predicate DispatchableWhereEnabled(b: Benchmark, archs: seq<string>, supported: string)
  {
    forall i :: 0 <= i < |archs| ==> ArchEnabled(archs[i], supported) ==> Shaped(b) && AllKnown(b.Dependencies().value.entries)
  }

  /** What configuring reports for the target of `b` on `arch`. */
  function BlockEvent(b: Benchmark, arch: string, supported: string, caps: string -> bool): Event
    requires IsText(b.Name()) && (ArchEnabled(arch, supported) ==> Shaped(b) && AllKnown(b.Dependencies().value.entries))
  {
    var target := TargetName(b.Name().value.s, arch);
    if !ArchEnabled(arch, supported) then Unsupported(target)
    else Outcome(target, Unmet(TargetRequirements(b), caps))
  }

  /**
    A target outside the compiler's architecture is reported unsupported; any other
    is built exactly when every requirement holds, and otherwise is reported not
    built with the reasons of the unmet requirements, in order: the dependencies'
    first, then the language standard's.
   */
  lemma BlockEventMeaning(b: Benchmark, arch: string, supported: string, caps: string -> bool)
    requires IsText(b.Name()) && (ArchEnabled(arch, supported) ==> Shaped(b) && AllKnown(b.Dependencies().value.entries))
    ensures var e := BlockEvent(b, arch, supported, caps);
      && e.target == TargetName(b.Name().value.s, arch)
      && (e.Unsupported? <==> !ArchEnabled(arch, supported))
      && (e.Built? <==>
            ArchEnabled(arch, supported) && forall i :: 0 <= i < |TargetRequirements(b)| ==> caps(TargetRequirements(b)[i].condition))
      && (e.NotBuilt? ==> e.reasons == Unmet(TargetRequirements(b), caps) && |e.reasons| > 0)
  {
    if ArchEnabled(arch, supported) {
      UnmetEmpty(TargetRequirements(b), caps);
    }
  }

  /** A target's requirements are one per dependency, in order, and then the language standard's. */
  lemma TargetRequirementsAt(b: Benchmark)
    requires Shaped(b) && AllKnown(b.Dependencies().value.entries)
    ensures var deps := b.Dependencies().value.entries;
      && |TargetRequirements(b)| == |deps| + 1
      && (forall i :: 0 <= i < |deps| ==> TargetRequirements(b)[i] == DependencyRequirement(deps[i].0))
      && TargetRequirements(b)[|deps|] == LanguageRequirement(LangTag(b.Language().value.s))
  {
    DependencyRequirementsAt(b.Dependencies().value.entries);
  }

  /** One block, run: it reports exactly its event. */
  lemma BlockRun(m: Machine, b: Benchmark, arch: string, root: string, supported: string, caps: string -> bool)
    requires m.active && IsText(b.Name()) && (ArchEnabled(arch, supported) ==> Shaped(b) && AllKnown(b.Dependencies().value.entries))
    ensures BlockDecls(b, arch, root, supported).Ok?
    ensures var r := Run(m, BlockDecls(b, arch, root, supported).value, caps);
      r.active && r.events == m.events + [BlockEvent(b, arch, supported, caps)]
  {
    var target := TargetName(b.Name().value.s, arch);
    if ArchEnabled(arch, supported) {
      var toggle := ToggleVariable(b.Name().value.s);
      var deps := b.Dependencies().value.entries;
      DependencyDispatch(b, deps, target, toggle, ReasonsVariable);
      DependencyGuards(b, deps, target, toggle);
      DependencyDeclsShape(b, deps, target, toggle, ReasonsVariable);
      DependencyRequirementsAt(deps);
      EnabledBlockRun(m, target, toggle, LangTag(b.Language().value.s), root,
                      Texts(b.Sources().value.items), Texts(b.Defines().value.items),
                      TargetDependencies(b, target).value, DependencyRequirements(deps), caps);
    } else {
      RunAppend(m, [BlockStart], [ArchNotSupported(target)], caps);
      assert [BlockStart] + [ArchNotSupported(target)] == [BlockStart, ArchNotSupported(target)];
      RunOne(m, BlockStart, caps);
      RunOne(m, ArchNotSupported(target), caps);
    }
  }

  /** The events of one benchmark's blocks, in order. */
  function ArchitectureEvents(b: Benchmark, archs: seq<string>, supported: string, caps: string -> bool): (es: seq<Event>)
    requires IsText(b.Name()) && DispatchableWhereEnabled(b, archs, supported)
    ensures |es| == |archs|
  {
    if |archs| == 0 then []
    else ArchitectureEvents(b, archs[..|archs| - 1], supported, caps) + [BlockEvent(b, archs[|archs| - 1], supported, caps)]
  }

  lemma {:induction false} ArchitectureRun(m: Machine, b: Benchmark, archs: seq<string>, root: string, supported: string, caps: string -> bool)
    requires m.active && IsText(b.Name()) && DispatchableWhereEnabled(b, archs, supported)
    ensures ShapedWhereEnabled(b, archs, supported)
    ensures ArchitectureDecls(b, archs, root, supported).Ok?
    ensures var r := Run(m, ArchitectureDecls(b, archs, root, supported).value, caps);
      r.active && r.events == m.events + ArchitectureEvents(b, archs, supported, caps)
  {
    if |archs| > 0 {
      var prefix := archs[..|archs| - 1];
      var last := archs[|archs| - 1];
      ArchitectureRun(m, b, prefix, root, supported, caps);
      var mp := Run(m, ArchitectureDecls(b, prefix, root, supported).value, caps);
      BlockRun(mp, b, last, root, supported, caps);
      RunAppend(m, ArchitectureDecls(b, prefix, root, supported).value, BlockDecls(b, last, root, supported).value, caps);
    }
  }

  /** A benchmark that does not fail to generate can generate every enabled block. */
  lemma DispatchableUnlessFails(b: Benchmark, supported: string)
    requires Buildable(b, supported) && !Fails(b, supported)
    ensures DispatchableWhereEnabled(b, ArchitectureList(b.Architectures()), supported)
  {
    var archs := ArchitectureList(b.Architectures());
    forall i | 0 <= i < |archs| && ArchEnabled(archs[i], supported)
      ensures Shaped(b) && AllKnown(b.Dependencies().value.entries)
    {
      assert HasEnabledArchitecture(archs, supported);
    }
  }

  /** The events of one benchmark. */
  function BenchmarkEvents(b: Benchmark, supported: string, caps: string -> bool): (es: seq<Event>)
    requires Buildable(b, supported) && !Fails(b, supported)
    ensures |es| == |ArchitectureList(b.Architectures())|
  {
    DispatchableUnlessFails(b, supported);
    ArchitectureEvents(b, ArchitectureList(b.Architectures()), supported, caps)
  }

  /** Event lists one after the other. */
  function Flatten(ess: seq<seq<Event>>): seq<Event>
  {
    if |ess| == 0 then [] else Flatten(ess[..|ess| - 1]) + ess[|ess| - 1]
  }

  /** The events of the benchmarks, in order. */
  function ProgramEvents(bs: seq<Benchmark>, supported: string, caps: string -> bool): seq<Event>
    requires forall i :: 0 <= i < |bs| ==> Buildable(bs[i], supported) && !Fails(bs[i], supported)
  {
    Flatten(seq(|bs|, i requires 0 <= i < |bs| => BenchmarkEvents(bs[i], supported, caps)))
  }

  /** There is one event per (benchmark, architecture) pair. */
  lemma {:induction false} ProgramEventsCount(bs: seq<Benchmark>, supported: string, caps: string -> bool)
    requires forall i :: 0 <= i < |bs| ==> Buildable(bs[i], supported) && !Fails(bs[i], supported)
    ensures |ProgramEvents(bs, supported, caps)| == PairCount(bs, supported)
  {
    if |bs| > 0 {
      var prefix := bs[..|bs| - 1];
      ProgramEventsCount(prefix, supported, caps);
      var ess := seq(|bs|, i requires 0 <= i < |bs| => BenchmarkEvents(bs[i], supported, caps));
      assert ess[..|bs| - 1] == seq(|prefix|, i requires 0 <= i < |prefix| => BenchmarkEvents(prefix[i], supported, caps));
    }
  }

  /** Running `ds` from `m` reports `es` and ends outside a branch. */
  predicate ReportsFrom(m: Machine, ds: seq<Decl>, es: seq<Event>, caps: string -> bool)
  {
    Run(m, ds, caps).active && Run(m, ds, caps).events == m.events + es
  }

  /** Output that, run from any state outside a branch, reports exactly `es` and ends outside a branch. */
  ghost predicate Reports(r: Result<seq<Decl>, BuildError>, es: seq<Event>, caps: string -> bool)
  {
    r.Ok? && forall m: Machine :: m.active ==> ReportsFrom(m, r.value, es, caps)
  }

  lemma ReportsAppend(m: Machine, a: seq<Decl>, b: seq<Decl>, ea: seq<Event>, eb: seq<Event>, caps: string -> bool)
    requires ReportsFrom(m, a, ea, caps) && ReportsFrom(Run(m, a, caps), b, eb, caps)
    ensures ReportsFrom(m, a + b, ea + eb, caps)
  {
    RunAppend(m, a, b, caps);
    AppendAssociative(m.events, ea, eb);
  }

  lemma {:induction false} ConcatAllReports(rs: seq<Result<seq<Decl>, BuildError>>, ess: seq<seq<Event>>, caps: string -> bool)
    requires |rs| == |ess| && forall i :: 0 <= i < |rs| ==> Reports(rs[i], ess[i], caps)
    ensures Reports(ConcatAll(rs), Flatten(ess), caps)
  {
    if |rs| > 0 {
      var n := |rs| - 1;
      ConcatAllReports(rs[..n], ess[..n], caps);
      var last := rs[n];
      assert Reports(last, ess[n], caps);
      var prefix := ConcatAll(rs[..n]);
      assert ConcatAll(rs) == Ok(prefix.value + last.value);
      assert Flatten(ess) == Flatten(ess[..n]) + ess[n];
      forall m: Machine | m.active
        ensures ReportsFrom(m, prefix.value + last.value, Flatten(ess[..n]) + ess[n], caps)
      {
        assert ReportsFrom(m, prefix.value, Flatten(ess[..n]), caps);
        assert ReportsFrom(Run(m, prefix.value, caps), last.value, ess[n], caps);
        ReportsAppend(m, prefix.value, last.value, Flatten(ess[..n]), ess[n], caps);
      }
    }
  }

  lemma BenchmarkRun(m: Machine, b: Benchmark, root: string, supported: string, caps: string -> bool)
    requires m.active && Buildable(b, supported) && !Fails(b, supported)
    ensures BenchmarkDecls(b, root, supported).Ok?
    ensures var r := Run(m, BenchmarkDecls(b, root, supported).value, caps);
      r.active && r.events == m.events + BenchmarkEvents(b, supported, caps)
  {
    DispatchableUnlessFails(b, supported);
    ArchitectureRun(m, b, ArchitectureList(b.Architectures()), root, supported, caps);
  }

  lemma BenchmarkReports(b: Benchmark, root: string, supported: string, caps: string -> bool)
    requires Buildable(b, supported) && !Fails(b, supported)
    ensures Reports(BenchmarkDecls(b, root, supported), BenchmarkEvents(b, supported, caps), caps)
  {
    BenchmarkRun(Initial, b, root, supported, caps);
    forall m: Machine | m.active
      ensures ReportsFrom(m, BenchmarkDecls(b, root, supported).value, BenchmarkEvents(b, supported, caps), caps)
    {
      BenchmarkRun(m, b, root, supported, caps);
    }
  }

  /** The header line reports nothing and leaves the run outside a branch. */
  lemma HeaderReports(body: Result<seq<Decl>, BuildError>, es: seq<Event>, caps: string -> bool)
    requires Reports(body, es, caps)
    ensures Concat(Ok([Header]), body).Ok?
    ensures Run(Initial, Concat(Ok([Header]), body).value, caps).events == es
  {
    RunOne(Initial, Header, caps);
    assert Run(Initial, [Header], caps) == Initial;
    assert ReportsFrom(Initial, body.value, es, caps);
    RunAppend(Initial, [Header], body.value, caps);
  }

  /**
    When no benchmark fails to generate, configuring the generated declarations,
    whatever the build provides, reports exactly one event per (benchmark,
    architecture) pair, in order, each the one its requirements determine.
   */
  lemma CMakeRun(bs: seq<Benchmark>, root: string, supported: string, caps: string -> bool)
    requires forall i :: 0 <= i < |bs| ==> Buildable(bs[i], supported) && !Fails(bs[i], supported)
    ensures CMakeDecls(bs, root, supported).Ok?
    ensures Run(Initial, CMakeDecls(bs, root, supported).value, caps).events == ProgramEvents(bs, supported, caps)
  {
    var rs := BenchmarkOutcomes(bs, root, supported);
    var ess := seq(|bs|, i requires 0 <= i < |bs| => BenchmarkEvents(bs[i], supported, caps));
    forall i | 0 <= i < |bs|
      ensures Reports(rs[i], ess[i], caps)
    {
      BenchmarkReports(bs[i], root, supported, caps);
    }
    ConcatAllReports(rs, ess, caps);
    BenchmarksDeclsAsOutcomes(bs, root, supported);
    HeaderReports(BenchmarksDecls(bs, root, supported), Flatten(ess), caps);
    assert ProgramEvents(bs, supported, caps) == Flatten(ess);
  }
}
