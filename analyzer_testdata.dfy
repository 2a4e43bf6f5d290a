/** The repository's analyzer test files, stated over the model: one source
    file that imports `fmt`, `k8s.io/api/apps/v1` as `v1` and
    `k8s.io/api/extensions/v1beta1` as `ext`, and refers to
    `ext.DaemonSet` six times (twice on one line), `v1.DaemonSet` three
    times and `fmt.Println` twice; run against the record table at the
    target versions the tests use. */
module AnalyzerTestdata {
  import opened Wrappers
  import opened GoStrings
  import Semver
  import opened VersionList
  import opened Analyzer
  import opened AnalyzerProperties

  /** A quoted import path literal. */
  function Quoted(path: string): string {
    ['"'] + path + ['"']
  }

  const FmtImport: ImportSpec := ImportSpec(Quoted("fmt"), None)
  const AppsImport: ImportSpec := ImportSpec(Quoted(KubeAPIImportPrefix + "apps/v1"), Some("v1"))
  const ExtensionsImport: ImportSpec := ImportSpec(Quoted(KubeAPIImportPrefix + "extensions/v1beta1"), Some("ext"))

  const TestImports: seq<ImportSpec> := [FmtImport, AppsImport, ExtensionsImport]

  /** The alias map the test file should produce. */
  const TestAliases: map<string, string> := map["v1" := "apps/v1", "ext" := "extensions/v1beta1"]

  lemma FmtImportIgnored()
    ensures !IsKubeAPIImport(ImportPath(FmtImport))
  {
    Unquote("fmt", '"');
  }

  lemma AppsImportBinds()
    ensures IsKubeAPIImport(ImportPath(AppsImport))
    ensures LocalName(AppsImport) == "v1" && APIVersionOf(ImportPath(AppsImport)) == "apps/v1"
  {
    Unquote(KubeAPIImportPrefix + "apps/v1", '"');
    AppsImportResolves();
  }

  lemma ExtensionsImportBinds()
    ensures IsKubeAPIImport(ImportPath(ExtensionsImport))
    ensures LocalName(ExtensionsImport) == "ext" && APIVersionOf(ImportPath(ExtensionsImport)) == "extensions/v1beta1"
  {
    Unquote(KubeAPIImportPrefix + "extensions/v1beta1", '"');
    ExtensionsImportResolves();
  }

  /** The alias map of the test file: `fmt` is not a Kubernetes API import
      and is left out. */
  lemma TestImportMap()
    ensures ImportMapOf(TestImports) == TestAliases
  {
    FmtImportIgnored();
    AppsImportBinds();
    ExtensionsImportBinds();
    var first := TestImports[..2][..1];
    assert first == [FmtImport] && first[..0] == [];
    assert ImportMapOf(first) == map[];
    assert TestImports[..2] == [FmtImport, AppsImport];
    assert ImportMapOf(TestImports[..2]) == map["v1" := "apps/v1"];
  }

  /** The selector `alias.kind` at position `pos`. */
  function Ref(alias: string, kind: string, pos: nat): Node {
    SelectorExpr(Ident(alias), kind, pos)
  }

  /** The selectors of the test file in traversal order, at positions `p`. */
  function TestNodes(p: seq<nat>): seq<Node>
    requires |p| == 11
  {
    [ Ref("ext", "DaemonSet", p[0]),    // interface method parameter
      Ref("ext", "DaemonSet", p[1]),    // struct field dsOld
      Ref("v1", "DaemonSet", p[2]),     // struct field dsNew
      Ref("v1", "DaemonSet", p[3]),     // struct field aaa
      Ref("ext", "DaemonSet", p[4]),    // type mytype
      Ref("ext", "DaemonSet", p[5]),    // composite literal dsOld
      Ref("v1", "DaemonSet", p[6]),     // composite literal dsNew
      Ref("fmt", "Println", p[7]),
      Ref("fmt", "Println", p[8]),
      Ref("ext", "DaemonSet", p[9]),    // myfunc2 parameter
      Ref("ext", "DaemonSet", p[10]) ]  // myfunc2 result
  }

  function TestFile(p: seq<nat>): SourceFile
    requires |p| == 11
  {
    SourceFile(TestImports, TestNodes(p))
  }

  const ExtDaemonSetKey: DeprecationKey := DeprecationKey("extensions/v1beta1", "DaemonSet")
  const AppsDaemonSetKey: DeprecationKey := DeprecationKey("apps/v1", "DaemonSet")

  /** A table shaped like the record table where the test file is concerned:
      no duplicate keys, record `i` for extensions/v1beta1 DaemonSet and no
      record for apps/v1 DaemonSet. */
  ghost predicate TestTable(table: seq<DeprecationInfo>, i: nat) {
    && NoDuplicateKeys(table)
    && i < |table| && KeyOf(table[i]) == ExtDaemonSetKey
    && forall j :: 0 <= j < |table| ==> KeyOf(table[j]) != AppsDaemonSetKey
  }

  /** What one `ext.DaemonSet` reference gives under `cfg`: the report of
      `info`, the record for its key. */
  function ExtDiagnostics(info: DeprecationInfo, cfg: Config, pos: nat): seq<Diagnostic> {
    match Report(info, Candidate("extensions/v1beta1", "DaemonSet", pos), cfg)
    case None => []
    case Some(d) => [d]
  }

  lemma ExtReference(table: seq<DeprecationInfo>, i: nat, cfg: Config, pos: nat)
    requires TestTable(table, i)
    ensures NodeDiagnostics(table, TestAliases, Ref("ext", "DaemonSet", pos), cfg) == ExtDiagnostics(table[i], cfg, pos)
  {
    ScanFindsRecord(table, i, Candidate("extensions/v1beta1", "DaemonSet", pos), cfg);
  }

  lemma AppsReference(table: seq<DeprecationInfo>, i: nat, cfg: Config, pos: nat)
    requires TestTable(table, i)
    ensures NodeDiagnostics(table, TestAliases, Ref("v1", "DaemonSet", pos), cfg) == []
  {
    ScanWithoutRecord(table, Candidate("apps/v1", "DaemonSet", pos), cfg);
  }

  lemma FmtReference(table: seq<DeprecationInfo>, cfg: Config, pos: nat)
    ensures NodeDiagnostics(table, TestAliases, Ref("fmt", "Println", pos), cfg) == []
  {
  }

  /** The diagnostics of three nodes, node by node. */
  lemma ThreeNodes(table: seq<DeprecationInfo>, m: map<string, string>, a: Node, b: Node, c: Node, cfg: Config)
    ensures NodesDiagnostics(table, m, [a, b, c], cfg)
      == NodeDiagnostics(table, m, a, cfg) + NodeDiagnostics(table, m, b, cfg) + NodeDiagnostics(table, m, c, cfg)
  {
    assert [a, b, c][..2] == [a, b] && [a, b][..1] == [a] && [a][..0] == [];
    assert NodesDiagnostics(table, m, [a], cfg) == [] + NodeDiagnostics(table, m, a, cfg);
    assert NodesDiagnostics(table, m, [a, b], cfg) == NodesDiagnostics(table, m, [a], cfg) + NodeDiagnostics(table, m, b, cfg);
  }

  /** The diagnostics of four consecutive pieces of a node list. */
  lemma FourPieces(table: seq<DeprecationInfo>, m: map<string, string>, a: seq<Node>, b: seq<Node>, c: seq<Node>, d: seq<Node>, cfg: Config)
    ensures NodesDiagnostics(table, m, a + b + c + d, cfg)
      == NodesDiagnostics(table, m, a, cfg) + NodesDiagnostics(table, m, b, cfg)
      + NodesDiagnostics(table, m, c, cfg) + NodesDiagnostics(table, m, d, cfg)
  {
    NodesDiagnosticsAppend(table, m, a + b + c, d, cfg);
    NodesDiagnosticsAppend(table, m, a + b, c, cfg);
    NodesDiagnosticsAppend(table, m, a, b, cfg);
  }

  // The test file in four pieces: the interface and the struct, the type
  // declaration and myfunc1's literal, myfunc1's other lines, and myfunc2.

  lemma FirstPiece(table: seq<DeprecationInfo>, i: nat, cfg: Config, p0: nat, p1: nat, p2: nat)
    requires TestTable(table, i)
    ensures NodesDiagnostics(table, TestAliases, [Ref("ext", "DaemonSet", p0), Ref("ext", "DaemonSet", p1), Ref("v1", "DaemonSet", p2)], cfg)
      == ExtDiagnostics(table[i], cfg, p0) + ExtDiagnostics(table[i], cfg, p1)
  {
    ThreeNodes(table, TestAliases, Ref("ext", "DaemonSet", p0), Ref("ext", "DaemonSet", p1), Ref("v1", "DaemonSet", p2), cfg);
    ExtReference(table, i, cfg, p0);
    ExtReference(table, i, cfg, p1);
    AppsReference(table, i, cfg, p2);
  }

  lemma SecondPiece(table: seq<DeprecationInfo>, i: nat, cfg: Config, p3: nat, p4: nat, p5: nat)
    requires TestTable(table, i)
    ensures NodesDiagnostics(table, TestAliases, [Ref("v1", "DaemonSet", p3), Ref("ext", "DaemonSet", p4), Ref("ext", "DaemonSet", p5)], cfg)
      == ExtDiagnostics(table[i], cfg, p4) + ExtDiagnostics(table[i], cfg, p5)
  {
    ThreeNodes(table, TestAliases, Ref("v1", "DaemonSet", p3), Ref("ext", "DaemonSet", p4), Ref("ext", "DaemonSet", p5), cfg);
    AppsReference(table, i, cfg, p3);
    ExtReference(table, i, cfg, p4);
    ExtReference(table, i, cfg, p5);
  }

  lemma ThirdPiece(table: seq<DeprecationInfo>, i: nat, cfg: Config, p6: nat, p7: nat, p8: nat)
    requires TestTable(table, i)
    ensures NodesDiagnostics(table, TestAliases, [Ref("v1", "DaemonSet", p6), Ref("fmt", "Println", p7), Ref("fmt", "Println", p8)], cfg) == []
  {
    ThreeNodes(table, TestAliases, Ref("v1", "DaemonSet", p6), Ref("fmt", "Println", p7), Ref("fmt", "Println", p8), cfg);
    AppsReference(table, i, cfg, p6);
    FmtReference(table, cfg, p7);
    FmtReference(table, cfg, p8);
  }

  lemma FourthPiece(table: seq<DeprecationInfo>, i: nat, cfg: Config, p9: nat, p10: nat)
    requires TestTable(table, i)
    ensures NodesDiagnostics(table, TestAliases, [Ref("ext", "DaemonSet", p9), Ref("ext", "DaemonSet", p10)], cfg)
      == ExtDiagnostics(table[i], cfg, p9) + ExtDiagnostics(table[i], cfg, p10)
  {
    var a, b := Ref("ext", "DaemonSet", p9), Ref("ext", "DaemonSet", p10);
    assert [a, b][..1] == [a] && [a][..0] == [];
    assert NodesDiagnostics(table, TestAliases, [a], cfg) == [] + NodeDiagnostics(table, TestAliases, a, cfg);
    ExtReference(table, i, cfg, p9);
    ExtReference(table, i, cfg, p10);
  }

  /** Under any flags, the test file is reported once per `ext.DaemonSet`
      reference, in order (twice for the two on myfunc2's line), and for no
      other selector. */
  lemma TestFileReports(table: seq<DeprecationInfo>, i: nat, p: seq<nat>, cfg: Config)
    requires TestTable(table, i) && |p| == 11
    ensures FileDiagnostics(table, TestFile(p), cfg)
      == ExtDiagnostics(table[i], cfg, p[0]) + ExtDiagnostics(table[i], cfg, p[1])
      + ExtDiagnostics(table[i], cfg, p[4]) + ExtDiagnostics(table[i], cfg, p[5])
      + ExtDiagnostics(table[i], cfg, p[9]) + ExtDiagnostics(table[i], cfg, p[10])
  {
    TestImportMap();
    var a := [Ref("ext", "DaemonSet", p[0]), Ref("ext", "DaemonSet", p[1]), Ref("v1", "DaemonSet", p[2])];
    var b := [Ref("v1", "DaemonSet", p[3]), Ref("ext", "DaemonSet", p[4]), Ref("ext", "DaemonSet", p[5])];
    var c := [Ref("v1", "DaemonSet", p[6]), Ref("fmt", "Println", p[7]), Ref("fmt", "Println", p[8])];
    var d := [Ref("ext", "DaemonSet", p[9]), Ref("ext", "DaemonSet", p[10])];
    assert TestNodes(p) == a + b + c + d;
    FourPieces(table, TestAliases, a, b, c, d, cfg);
    FirstPiece(table, i, cfg, p[0], p[1], p[2]);
    SecondPiece(table, i, cfg, p[3], p[4], p[5]);
    ThirdPiece(table, i, cfg, p[6], p[7], p[8]);
    FourthPiece(table, i, cfg, p[9], p[10]);
  }

  /** The record table has the shape the test file relies on. */
  lemma RecordTableIsTestTable()
    ensures TestTable(DeprecationInfoList, 11)
  {
    TableHasNoDuplicateKeys();
  }

  // The record for extensions/v1beta1 DaemonSet (deprecated in v1.9.0,
  // removed in v1.16.0) at the targets of the repository's tests.

  const DeprecatedIn: string := "v1.9.0"
  const RemovedIn: string := "v1.16.0"
  const ExtDaemonSetInfo: DeprecationInfo := DeprecationInfo("extensions/v1beta1", "DaemonSet", DeprecatedIn, RemovedIn, "apps/v1")

  lemma ExtDaemonSetRecord()
    ensures DeprecationInfoList[11] == ExtDaemonSetInfo
  {
  }

  const DeprecatedMessage: string :=
    "extensions/v1beta1" + ":" + "DaemonSet" + " is deprecated in " + DeprecatedIn + ". Migrate to " + "apps/v1" + ":" + "DaemonSet" + "."
  const RemovedMessage: string :=
    "extensions/v1beta1" + ":" + "DaemonSet" + " is removed in " + RemovedIn + ". Migrate to " + "apps/v1" + ":" + "DaemonSet" + "."

  /** The decision on a record whose thresholds and target all parse, read
      off the parsed versions. */
  lemma DecideByVersions(info: DeprecationInfo, cfg: Config, t: Semver.Version, d: Semver.Version, r: Semver.Version)
    requires Semver.Parse(cfg.targetVersion) == Some(t)
    requires Semver.Parse(info.deprecatedIn) == Some(d) && info.deprecatedIn != ""
    requires Semver.Parse(info.removedIn) == Some(r) && info.removedIn != ""
    ensures Decide(info, cfg) ==
      if !cfg.ignoreRemoval && Semver.CompareVersions(t, r) >= 0 then Some(Removed)
      else if !cfg.ignoreDeprecation && Semver.CompareVersions(t, d) >= 0 then Some(Deprecated)
      else None
  {
  }

  lemma ExtDaemonSetVersions()
    ensures Semver.Parse(ExtDaemonSetInfo.deprecatedIn) == Some(Semver.Version(1, 9, 0))
    ensures Semver.Parse(ExtDaemonSetInfo.removedIn) == Some(Semver.Version(1, 16, 0))
  {
    Parses1_9_0();
    Parses1_16_0();
  }

  /** Target v1.8.0: neither threshold is reached. */
  lemma ExtDaemonSetAt1_8_0(cfg: Config)
    requires cfg.targetVersion == "v1.8.0"
    ensures Decide(ExtDaemonSetInfo, cfg) == None
  {
    Parses1_8_0();
    ExtDaemonSetVersions();
    DecideByVersions(ExtDaemonSetInfo, cfg, Semver.Version(1, 8, 0), Semver.Version(1, 9, 0), Semver.Version(1, 16, 0));
  }

  /** Target v1.15.0: deprecated, not yet removed. */
  lemma ExtDaemonSetAt1_15_0(cfg: Config)
    requires cfg.targetVersion == "v1.15.0" && !cfg.ignoreDeprecation
    ensures Decide(ExtDaemonSetInfo, cfg) == Some(Deprecated)
  {
    Parses1_15_0();
    ExtDaemonSetVersions();
    DecideByVersions(ExtDaemonSetInfo, cfg, Semver.Version(1, 15, 0), Semver.Version(1, 9, 0), Semver.Version(1, 16, 0));
  }

  /** Target v1.16.0: the removal threshold is reached, inclusively. */
  lemma ExtDaemonSetAt1_16_0(cfg: Config)
    requires cfg.targetVersion == "v1.16.0" && !cfg.ignoreRemoval
    ensures Decide(ExtDaemonSetInfo, cfg) == Some(Removed)
  {
    Parses1_16_0();
    ExtDaemonSetVersions();
    DecideByVersions(ExtDaemonSetInfo, cfg, Semver.Version(1, 16, 0), Semver.Version(1, 9, 0), Semver.Version(1, 16, 0));
  }

  /** Target v1.17.0 with the default flags: past the removal threshold,
      so the record is removed. */
  lemma ExtDaemonSetAt1_17_0(cfg: Config)
    requires cfg.targetVersion == "v1.17.0" && !cfg.ignoreRemoval
    ensures Decide(ExtDaemonSetInfo, cfg) == Some(Removed)
  {
    Parses1_17_0();
    ExtDaemonSetVersions();
    DecideByVersions(ExtDaemonSetInfo, cfg, Semver.Version(1, 17, 0), Semver.Version(1, 9, 0), Semver.Version(1, 16, 0));
  }

  /** Target v1.17.0 with removal switched off: the deprecation check still
      runs and reports. */
  lemma ExtDaemonSetAt1_17_0IgnoringRemoval(cfg: Config)
    requires cfg.targetVersion == "v1.17.0" && cfg.ignoreRemoval && !cfg.ignoreDeprecation
    ensures Decide(ExtDaemonSetInfo, cfg) == Some(Deprecated)
  {
    Parses1_17_0();
    ExtDaemonSetVersions();
    DecideByVersions(ExtDaemonSetInfo, cfg, Semver.Version(1, 17, 0), Semver.Version(1, 9, 0), Semver.Version(1, 16, 0));
  }

  /** The test file's six `ext.DaemonSet` positions, each with `message`. */
  function SixReports(p: seq<nat>, message: string): seq<Diagnostic>
    requires |p| == 11
  {
    [ Diagnostic(p[0], message), Diagnostic(p[1], message), Diagnostic(p[4], message),
      Diagnostic(p[5], message), Diagnostic(p[9], message), Diagnostic(p[10], message) ]
  }

  /** When the record fires, each of the six references reports its
      verdict's message. */
  lemma SixReportsOf(info: DeprecationInfo, cfg: Config, p: seq<nat>, v: Verdict)
    requires |p| == 11 && Decide(info, cfg) == Some(v)
    ensures ExtDiagnostics(info, cfg, p[0]) + ExtDiagnostics(info, cfg, p[1])
      + ExtDiagnostics(info, cfg, p[4]) + ExtDiagnostics(info, cfg, p[5])
      + ExtDiagnostics(info, cfg, p[9]) + ExtDiagnostics(info, cfg, p[10])
      == SixReports(p, Message(v, "extensions/v1beta1", "DaemonSet", info))
  {
  }

  lemma ExtDaemonSetMessages()
    ensures Message(Deprecated, "extensions/v1beta1", "DaemonSet", ExtDaemonSetInfo) == DeprecatedMessage
    ensures Message(Removed, "extensions/v1beta1", "DaemonSet", ExtDaemonSetInfo) == RemovedMessage
  {
  }

  /** The file's diagnostics on the record table, in terms of the
      extensions/v1beta1 DaemonSet record. */
  lemma TestFileOnRecordTable(p: seq<nat>, cfg: Config)
    requires |p| == 11
    ensures FileDiagnostics(DeprecationInfoList, TestFile(p), cfg)
      == ExtDiagnostics(ExtDaemonSetInfo, cfg, p[0]) + ExtDiagnostics(ExtDaemonSetInfo, cfg, p[1])
      + ExtDiagnostics(ExtDaemonSetInfo, cfg, p[4]) + ExtDiagnostics(ExtDaemonSetInfo, cfg, p[5])
      + ExtDiagnostics(ExtDaemonSetInfo, cfg, p[9]) + ExtDiagnostics(ExtDaemonSetInfo, cfg, p[10])
  {
    RecordTableIsTestTable();
    ExtDaemonSetRecord();
    TestFileReports(DeprecationInfoList, 11, p, cfg);
  }

  /** The "ok" test: target v1.8.0 reports nothing. */
  lemma OkTest(p: seq<nat>, cfg: Config)
    requires |p| == 11 && cfg.targetVersion == "v1.8.0"
    ensures FileDiagnostics(DeprecationInfoList, TestFile(p), cfg) == []
  {
    TestFileOnRecordTable(p, cfg);
    ExtDaemonSetAt1_8_0(cfg);
  }

  /** The "deprecation" test: target v1.15.0 reports every `ext.DaemonSet`
      as deprecated. */
  lemma DeprecationTest(p: seq<nat>, cfg: Config)
    requires |p| == 11 && cfg.targetVersion == "v1.15.0" && !cfg.ignoreDeprecation && !cfg.ignoreRemoval
    ensures FileDiagnostics(DeprecationInfoList, TestFile(p), cfg) == SixReports(p, DeprecatedMessage)
  {
    TestFileOnRecordTable(p, cfg);
    ExtDaemonSetAt1_15_0(cfg);
    SixReportsOf(ExtDaemonSetInfo, cfg, p, Deprecated);
    ExtDaemonSetMessages();
  }

  /** The "removal" test: target v1.16.0 reports every `ext.DaemonSet` as
      removed. */
  lemma RemovalTest(p: seq<nat>, cfg: Config)
    requires |p| == 11 && cfg.targetVersion == "v1.16.0" && !cfg.ignoreDeprecation && !cfg.ignoreRemoval
    ensures FileDiagnostics(DeprecationInfoList, TestFile(p), cfg) == SixReports(p, RemovedMessage)
  {
    TestFileOnRecordTable(p, cfg);
    ExtDaemonSetAt1_16_0(cfg);
    SixReportsOf(ExtDaemonSetInfo, cfg, p, Removed);
    ExtDaemonSetMessages();
  }

  /** Target v1.17.0 with the default flags, the setting of the "mix"
      test: every `ext.DaemonSet` is reported as removed. */
  lemma LaterTargetTest(p: seq<nat>, cfg: Config)
    requires |p| == 11 && cfg.targetVersion == "v1.17.0" && !cfg.ignoreDeprecation && !cfg.ignoreRemoval
    ensures FileDiagnostics(DeprecationInfoList, TestFile(p), cfg) == SixReports(p, RemovedMessage)
  {
    TestFileOnRecordTable(p, cfg);
    ExtDaemonSetAt1_17_0(cfg);
    SixReportsOf(ExtDaemonSetInfo, cfg, p, Removed);
    ExtDaemonSetMessages();
  }

  /** Target v1.17.0 with removal switched off: every `ext.DaemonSet` is
      reported as deprecated. */
  lemma IgnoreRemovalTest(p: seq<nat>, cfg: Config)
    requires |p| == 11 && cfg.targetVersion == "v1.17.0" && !cfg.ignoreDeprecation && cfg.ignoreRemoval
    ensures FileDiagnostics(DeprecationInfoList, TestFile(p), cfg) == SixReports(p, DeprecatedMessage)
  {
    TestFileOnRecordTable(p, cfg);
    ExtDaemonSetAt1_17_0IgnoringRemoval(cfg);
    SixReportsOf(ExtDaemonSetInfo, cfg, p, Deprecated);
    ExtDaemonSetMessages();
  }
}
