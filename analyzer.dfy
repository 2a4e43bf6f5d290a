/** The analyzer's `run`: for each file, the map from import alias to
    Kubernetes API version, the selector expressions `alias.Kind` that go
    through that map, the removal/deprecation decision against the record
    table, and the diagnostic messages. */
module Analyzer {
  import opened Wrappers
  import opened GoStrings
  import Semver
  import opened VersionList

  const KubeAPIImportPrefix: string := "k8s.io/api/"
  const KubeCoreAPIPrefix: string := "core/"

  // ---------------------------------------------------------------------
  // Import resolution

  /** One import declaration: the path literal as written in the source
      (quotes included) and the explicit local name, if there is one. */
  datatype ImportSpec = ImportSpec(pathLiteral: string, name: Option<string>)

  /** The import path: the literal with every quote character removed. */
  function ImportPath(imp: ImportSpec): string {
    RemoveAll(imp.pathLiteral, '"')
  }

  predicate IsKubeAPIImport(path: string) {
    HasPrefix(path, KubeAPIImportPrefix)
  }

  /** The API version an import path names: the piece after `k8s.io/api/`,
      and of that the piece after `core/` when it starts with `core/`. */
  function APIVersionOf(path: string): string
    requires IsKubeAPIImport(path)
  {
    var apiVersion := SplitAfter(path, KubeAPIImportPrefix)[1];
    if HasPrefix(apiVersion, KubeCoreAPIPrefix) then SplitAfter(apiVersion, KubeCoreAPIPrefix)[1]
    else apiVersion
  }

  /** The local name an import binds: its explicit name, or else the last
      `/`-separated segment of its path. */
  function LocalName(imp: ImportSpec): string {
    match imp.name
    case Some(n) => n
    case None => LastPiece(ImportPath(imp), '/')
  }

  /** `imp` is a Kubernetes API import whose local name is `alias`. */
  predicate Binds(imp: ImportSpec, alias: string) {
    IsKubeAPIImport(ImportPath(imp)) && LocalName(imp) == alias
  }

  /** The alias map of a file after its imports are processed in order; a
      later import with the same alias overwrites an earlier one. */
  function ImportMapOf(imports: seq<ImportSpec>): map<string, string> {
    if imports == [] then map[]
    else
      var m := ImportMapOf(imports[..|imports| - 1]);
      var imp := imports[|imports| - 1];
      var path := ImportPath(imp);
      if IsKubeAPIImport(path) then m[LocalName(imp) := APIVersionOf(path)] else m
  }

  /** The loop over a file's imports that fills the alias map. */
  method BuildImportMap(imports: seq<ImportSpec>) returns (importMap: map<string, string>)
    ensures importMap == ImportMapOf(imports)
  {
    importMap := map[];
    for i := 0 to |imports|
      invariant importMap == ImportMapOf(imports[..i])
    {
      assert imports[..i + 1][..i] == imports[..i];
      var imp := imports[i];
      var path := RemoveAll(imp.pathLiteral, '"');
      var localPkgName := imp.name;
      if !HasPrefix(path, KubeAPIImportPrefix) {
        continue;
      }
      var apiVersion := SplitAfter(path, KubeAPIImportPrefix)[1];
      if HasPrefix(apiVersion, KubeCoreAPIPrefix) {
        apiVersion := SplitAfter(apiVersion, KubeCoreAPIPrefix)[1];
      }
      if localPkgName.Some? {
        importMap := importMap[localPkgName.value := apiVersion];
      } else {
        var elems := Split(path, '/');
        var pkgName := elems[|elems| - 1];
        importMap := importMap[pkgName := apiVersion];
      }
    }
    assert imports[..|imports|] == imports;
  }

  // ---------------------------------------------------------------------
  // Reference matching

  /** The base of a selector expression: a plain identifier or anything else. */
  datatype Expr = Ident(name: string) | OtherExpr

  /** A node of the syntax tree, in traversal order: a selector expression
      `x.sel` at a position, or any other node. */
  datatype Node = SelectorExpr(x: Expr, sel: string, pos: nat) | OtherNode

  /** One reference to look up: API version, kind and position. */
  datatype Candidate = Candidate(apiVersion: string, kind: string, pos: nat)

  /** The candidate a node yields: only a selector whose base is an
      identifier bound in the alias map yields one. */
  function CandidateOf(importMap: map<string, string>, node: Node): Option<Candidate> {
    match node
    case SelectorExpr(Ident(pkgName), kind, pos) =>
      if pkgName in importMap then Some(Candidate(importMap[pkgName], kind, pos)) else None
    case _ => None
  }

  // ---------------------------------------------------------------------
  // Decision and messages

  /** The flags of a run. */
  datatype Config = Config(targetVersion: string, ignoreDeprecation: bool, ignoreRemoval: bool)

  datatype Diagnostic = Diagnostic(pos: nat, message: string)

  datatype Verdict = Removed | Deprecated

  /** The threshold test as the source writes it: the comparison alone. An
      empty threshold is not a valid version, so it ranks below every valid
      target and fires. */
  predicate ReachedAsWritten(target: string, threshold: string) {
    Semver.Compare(target, threshold) >= 0
  }

  /** The threshold test the model uses: a threshold fires for the target
      when it is present and the target is at or after it. An empty
      threshold never fires. */
  predicate Reached(target: string, threshold: string) {
    threshold != "" && Semver.Compare(target, threshold) >= 0
  }

  /** The check of one record: removal first, then deprecation, each unless
      its flag switches it off. */
  function Decide(info: DeprecationInfo, cfg: Config): Option<Verdict> {
    if !cfg.ignoreRemoval && Reached(cfg.targetVersion, info.removedIn) then Some(Removed)
    else if !cfg.ignoreDeprecation && Reached(cfg.targetVersion, info.deprecatedIn) then Some(Deprecated)
    else None
  }

  /** The check of one record with the source's own threshold test. */
  function DecideAsWritten(info: DeprecationInfo, cfg: Config): Option<Verdict> {
    if !cfg.ignoreRemoval && ReachedAsWritten(cfg.targetVersion, info.removedIn) then Some(Removed)
    else if !cfg.ignoreDeprecation && ReachedAsWritten(cfg.targetVersion, info.deprecatedIn) then Some(Deprecated)
    else None
  }

  /** The message of a verdict, naming the old API, the kind, the threshold
      that fired and the replacement API. */
  function Message(verdict: Verdict, apiVersion: string, kind: string, info: DeprecationInfo): string {
    match verdict
    case Removed =>
      apiVersion + ":" + kind + " is removed in " + info.removedIn
      + ". Migrate to " + info.replacementAPI + ":" + kind + "."
    case Deprecated =>
      apiVersion + ":" + kind + " is deprecated in " + info.deprecatedIn
      + ". Migrate to " + info.replacementAPI + ":" + kind + "."
  }

  /** The diagnostic a record gives a candidate with the record's key. */
  function Report(info: DeprecationInfo, c: Candidate, cfg: Config): Option<Diagnostic> {
    match Decide(info, cfg)
    case None => None
    case Some(verdict) => Some(Diagnostic(c.pos, Message(verdict, c.apiVersion, c.kind, info)))
  }

  /** The diagnostic the scan of the table gives a candidate: that of the
      first record with the candidate's key whose check fires. */
  function ScanTable(table: seq<DeprecationInfo>, c: Candidate, cfg: Config): Option<Diagnostic>
    decreases |table|
  {
    if table == [] then None
    else if c.apiVersion == table[0].apiVersion && c.kind == table[0].kind && Report(table[0], c, cfg).Some? then
      Report(table[0], c, cfg)
    else ScanTable(table[1..], c, cfg)
  }

  /** The loop over the table for one candidate, stopping at the first
      report. */
  method CheckCandidate(table: seq<DeprecationInfo>, c: Candidate, cfg: Config) returns (d: Option<Diagnostic>)
    ensures d == ScanTable(table, c, cfg)
  {
    d := None;
    for i := 0 to |table|
      invariant d == None
      invariant ScanTable(table[i..], c, cfg) == ScanTable(table, c, cfg)
    {
      assert table[i..][1..] == table[i + 1..];
      var di := table[i];
      if c.apiVersion != di.apiVersion || c.kind != di.kind {
        continue;
      }
      if !cfg.ignoreRemoval && Reached(cfg.targetVersion, di.removedIn) {
        d := Some(Diagnostic(c.pos, Message(Removed, c.apiVersion, c.kind, di)));
        break;
      }
      if !cfg.ignoreDeprecation && Reached(cfg.targetVersion, di.deprecatedIn) {
        d := Some(Diagnostic(c.pos, Message(Deprecated, c.apiVersion, c.kind, di)));
        break;
      }
    }
  }

  // ---------------------------------------------------------------------
  // Files and the run

  /** A parsed source file: its imports and its nodes in traversal order. */
  datatype SourceFile = SourceFile(imports: seq<ImportSpec>, nodes: seq<Node>)

  /** The diagnostics of one node: none or one. */
  function NodeDiagnostics(table: seq<DeprecationInfo>, importMap: map<string, string>, node: Node, cfg: Config): seq<Diagnostic> {
    match CandidateOf(importMap, node)
    case None => []
    case Some(c) =>
      match ScanTable(table, c, cfg)
      case None => []
      case Some(d) => [d]
  }

  /** The diagnostics of a sequence of nodes, in order. */
  function NodesDiagnostics(table: seq<DeprecationInfo>, importMap: map<string, string>, nodes: seq<Node>, cfg: Config): seq<Diagnostic> {
    if nodes == [] then []
    else
      NodesDiagnostics(table, importMap, nodes[..|nodes| - 1], cfg)
      + NodeDiagnostics(table, importMap, nodes[|nodes| - 1], cfg)
  }

  function FileDiagnostics(table: seq<DeprecationInfo>, f: SourceFile, cfg: Config): seq<Diagnostic> {
    NodesDiagnostics(table, ImportMapOf(f.imports), f.nodes, cfg)
  }

  /** The diagnostics of the files, file after file. */
  function RunDiagnostics(table: seq<DeprecationInfo>, files: seq<SourceFile>, cfg: Config): seq<Diagnostic> {
    if files == [] then []
    else RunDiagnostics(table, files[..|files| - 1], cfg) + FileDiagnostics(table, files[|files| - 1], cfg)
  }

  /** `run`: an invalid target version is an error before any file is looked
      at; otherwise every file is processed and its diagnostics reported. */
  method Run(table: seq<DeprecationInfo>, files: seq<SourceFile>, cfg: Config)
    returns (r: Result<seq<Diagnostic>, string>)
    ensures !Semver.IsValid(cfg.targetVersion) ==> r == Failure("invalid semver: " + cfg.targetVersion)
    ensures Semver.IsValid(cfg.targetVersion) ==> r == Success(RunDiagnostics(table, files, cfg))
  {
    if !Semver.IsValid(cfg.targetVersion) {
      return Failure("invalid semver: " + cfg.targetVersion);
    }
    var reported: seq<Diagnostic> := [];
    for fi := 0 to |files|
      invariant reported == RunDiagnostics(table, files[..fi], cfg)
    {
      assert files[..fi + 1][..fi] == files[..fi];
      var f := files[fi];
      var importMap := BuildImportMap(f.imports);
      for ni := 0 to |f.nodes|
        invariant reported == RunDiagnostics(table, files[..fi], cfg) + NodesDiagnostics(table, importMap, f.nodes[..ni], cfg)
      {
        assert f.nodes[..ni + 1][..ni] == f.nodes[..ni];
        var node := f.nodes[ni];
        if node.SelectorExpr? && node.x.Ident? && node.x.name in importMap {
          var d := CheckCandidate(table, Candidate(importMap[node.x.name], node.sel, node.pos), cfg);
          if d.Some? {
            reported := reported + [d.value];
          }
        }
      }
      assert f.nodes[..|f.nodes|] == f.nodes;
    }
    assert files[..|files|] == files;
    return Success(reported);
  }
}
