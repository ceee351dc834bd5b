/** dataplane/internal/sandbox/check.go: the static check of a module against
    what its hook grants, and why growing hooks never break a module. */
module Sandbox {
  import opened Basics
  import opened Tables
  import opened Services
  import History

  datatype Import = Import(source: string, name: string)

  datatype Signature = Signature(params: seq<string>, results: seq<string>)

  datatype ModuleInfo = ModuleInfo(imports: seq<Import>, memoryImports: seq<Import>,
                                   exports: seq<string>, signatures: map<string, Signature>)

  const EXPORT := "handle"
  const KERNEL_MODULE := "extism:host/env"
  const USER_MODULE := "extism:host/user"

  /** Memory and I/O plumbing, errors, config, vars and logging: no network. */
  const KERNEL_ALLOWED: set<string> := {
    "alloc", "free", "length", "length_unsafe",
    "load_u8", "load_u64", "store_u8", "store_u64",
    "input_length", "input_load_u8", "input_load_u64", "input_offset",
    "output_set", "output_length", "output_offset",
    "error_set", "error_get", "reset", "memory_bytes",
    "config_get", "var_get", "var_set",
    "log_trace", "log_debug", "log_info", "log_warn", "log_error",
    "get_log_level"
  }

  datatype ExportProblem = MissingExport | BadExportType(sig: Signature)

  datatype ImportProblem = ForbiddenImport(imp: Import) | ForbiddenMemory(imp: Import)

  datatype ModuleError = ModuleError(exportProblems: seq<ExportProblem>, importProblems: seq<ImportProblem>)

  /** () -> i32, or () -> (). */
  predicate ValidHandle(sig: Signature) {
    sig.params == [] && (sig.results == [] || sig.results == ["i32"])
  }

  predicate ImportAllowed(imp: Import, granted: seq<string>) {
    if imp.source == KERNEL_MODULE then imp.name in KERNEL_ALLOWED
    else imp.source == USER_MODULE && imp.name in granted
  }

  predicate ExportFits(info: ModuleInfo) {
    EXPORT in info.exports && (EXPORT in info.signatures ==> ValidHandle(info.signatures[EXPORT]))
  }

  /** The module may run under a hook that grants these host functions. */
  predicate Passes(info: ModuleInfo, granted: seq<string>) {
    && ExportFits(info) && info.memoryImports == []
    && forall i :: 0 <= i < |info.imports| ==> ImportAllowed(info.imports[i], granted)
  }

  /** The forbidden imports, in the order the module lists them. */
  function Forbidden(imports: seq<Import>, granted: seq<string>): seq<ImportProblem> {
    if imports == [] then []
    else
      var n := |imports| - 1;
      Forbidden(imports[..n], granted)
      + if ImportAllowed(imports[n], granted) then [] else [ForbiddenImport(imports[n])]
  }

  function Memories(imports: seq<Import>): seq<ImportProblem> {
    seq(|imports|, i requires 0 <= i < |imports| => ForbiddenMemory(imports[i]))
  }

  method CheckImports(info: ModuleInfo, granted: seq<string>) returns (problems: seq<ImportProblem>)
    ensures problems == Forbidden(info.imports, granted) + Memories(info.memoryImports)
    ensures var n := |problems| - |info.memoryImports|;
      n >= 0 && forall i :: 0 <= i < |info.memoryImports| ==> problems[n + i] == ForbiddenMemory(info.memoryImports[i])
  {
    problems := [];
    for i := 0 to |info.imports|
      invariant problems == Forbidden(info.imports[..i], granted)
    {
      assert info.imports[..i + 1][..i] == info.imports[..i];
      if !ImportAllowed(info.imports[i], granted) {
        problems := problems + [ForbiddenImport(info.imports[i])];
      }
    }
    assert info.imports[..|info.imports|] == info.imports;
    for i := 0 to |info.memoryImports|
      invariant problems == Forbidden(info.imports, granted) + Memories(info.memoryImports[..i])
    {
      var imp := info.memoryImports[i];
      assert Memories(info.memoryImports[..i + 1]) == Memories(info.memoryImports[..i]) + [ForbiddenMemory(imp)];
      problems := problems + [ForbiddenMemory(imp)];
    }
    assert info.memoryImports[..|info.memoryImports|] == info.memoryImports;
  }

  /** Reports every violation at once, and accepts exactly the modules without. */
  method CheckModule(info: ModuleInfo, granted: seq<string>) returns (e: Option<ModuleError>)
    ensures e.None? <==> Passes(info, granted)
    ensures e.None? <==>
      && EXPORT in info.exports
      && (EXPORT in info.signatures ==> info.signatures[EXPORT] in {Signature([], []), Signature([], ["i32"])})
      && info.memoryImports == []
      && forall imp :: imp in info.imports ==>
           || (imp.source == "extism:host/env" && imp.name in KERNEL_ALLOWED)
           || (imp.source == "extism:host/user" && imp.name in granted)
    ensures e.Some? ==> e.value.importProblems == Forbidden(info.imports, granted) + Memories(info.memoryImports)
    ensures e.Some? ==> (e.value.exportProblems == [] <==> ExportFits(info))
    ensures e.Some? && e.value.exportProblems != [] ==>
      e.value.exportProblems == [if EXPORT in info.exports then BadExportType(info.signatures[EXPORT]) else MissingExport]
  {
    var problems: seq<ExportProblem> := [];
    if EXPORT !in info.exports {
      problems := [MissingExport];
    } else if EXPORT in info.signatures && !ValidHandle(info.signatures[EXPORT]) {
      problems := [BadExportType(info.signatures[EXPORT])];
    }
    var imports := CheckImports(info, granted);
    ForbiddenMeaning(info.imports, granted);
    if problems != [] || imports != [] {
      return Some(ModuleError(problems, imports));
    }
    return None;
  }

  /** A violation is listed exactly for the imports that are not allowed. */
  lemma {:induction false} ForbiddenMeaning(imports: seq<Import>, granted: seq<string>)
    ensures forall imp ::
      ForbiddenImport(imp) in Forbidden(imports, granted) <==> imp in imports && !ImportAllowed(imp, granted)
    ensures forall p :: p in Forbidden(imports, granted) ==> p.ForbiddenImport?
    ensures Forbidden(imports, granted) == [] <==> forall i :: 0 <= i < |imports| ==> ImportAllowed(imports[i], granted)
  {
    if imports != [] {
      var n := |imports| - 1;
      assert imports == imports[..n] + [imports[n]];
      ForbiddenMeaning(imports[..n], granted);
    }
  }

  /** They are listed in the order of the imports, import by import. */
  lemma {:induction false} ForbiddenInOrder(first: seq<Import>, imp: Import, rest: seq<Import>, granted: seq<string>)
    ensures Forbidden(first + [imp] + rest, granted) ==
      Forbidden(first, granted)
      + (if (imp.source == "extism:host/env" && imp.name in KERNEL_ALLOWED)
            || (imp.source == "extism:host/user" && imp.name in granted) then [] else [ForbiddenImport(imp)])
      + Forbidden(rest, granted)
    decreases |rest|
  {
    var all := first + [imp] + rest;
    if rest == [] {
      assert all == first + [imp] && all[..|all| - 1] == first;
    } else {
      var n := |rest| - 1;
      ForbiddenInOrder(first, imp, rest[..n], granted);
      assert all[..|all| - 1] == first + [imp] + rest[..n];
    }
  }

  /** A larger grant forbids no more than before. */
  lemma GrantsGrow(info: ModuleInfo, was: seq<string>, now: seq<string>)
    requires ToSet(was) <= ToSet(now)
    ensures Passes(info, was) ==> Passes(info, now)
    ensures forall p :: p in Forbidden(info.imports, now) ==> p in Forbidden(info.imports, was)
  {
    assert forall f :: f in was ==> f in ToSet(was);
    assert forall f :: f in now <==> f in ToSet(now);
    ForbiddenMeaning(info.imports, was);
    ForbiddenMeaning(info.imports, now);
    forall p | p in Forbidden(info.imports, now) ensures p in Forbidden(info.imports, was) {
      assert !ImportAllowed(p.imp, now);
      assert !ImportAllowed(p.imp, was);
    }
  }

  /** Over any history of hook replacements, a module that passes under one
      published definition passes under every later one of the same hook. */
  lemma GrowthKeepsModules(run: seq<History.Sys>, i: nat, j: nat, a: HookOut, b: HookOut, info: ModuleInfo)
    requires History.IsRun(run) && i <= j < |run|
    requires a in Visible(run[i].db).hooks && b in Visible(run[j].db).hooks && a.name == b.name
    ensures Passes(info, a.spec.hostFunctions) ==> Passes(info, b.spec.hostFunctions)
  {
    History.HooksEvolve(run, i, j, a, b);
    GrantsGrow(info, a.spec.hostFunctions, b.spec.hostFunctions);
  }
}
