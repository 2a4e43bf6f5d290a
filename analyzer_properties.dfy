/** What the analyzer promises: how imports resolve to API versions, which
    selectors become candidates, how the removal/deprecation decision
    behaves under the flags and the target version, that the linear scan of
    the table agrees with the keyed map, that every reference is reported
    in order, and the outcomes for the repository's own test files. */
module AnalyzerProperties {
  import opened Wrappers
  import opened GoStrings
  import Semver
  import opened VersionList
  import opened Analyzer

  // ---------------------------------------------------------------------
  // Import resolution

  /** A path `k8s.io/api/<rest>` whose rest does not start with `core/`
      names the rest as its API version. */
  lemma APIVersionOfGroupPath(rest: string)
    requires !HasPrefix(rest, KubeCoreAPIPrefix) && !Contains(rest, KubeAPIImportPrefix)
    ensures IsKubeAPIImport(KubeAPIImportPrefix + rest)
    ensures APIVersionOf(KubeAPIImportPrefix + rest) == rest
  {
    var path := KubeAPIImportPrefix + rest;
    assert path[..|KubeAPIImportPrefix|] == KubeAPIImportPrefix;
    assert path[|KubeAPIImportPrefix|..] == rest;
  }

  /** A path `k8s.io/api/core/<rest>` names the bare `<rest>`: the core
      group has no group name in its API version. */
  lemma APIVersionOfCorePath(rest: string)
    requires !Contains(KubeCoreAPIPrefix + rest, KubeAPIImportPrefix)
    requires !Contains(rest, KubeCoreAPIPrefix)
    ensures IsKubeAPIImport(KubeAPIImportPrefix + KubeCoreAPIPrefix + rest)
    ensures APIVersionOf(KubeAPIImportPrefix + KubeCoreAPIPrefix + rest) == rest
  {
    var tail := KubeCoreAPIPrefix + rest;
    var path := KubeAPIImportPrefix + tail;
    assert KubeAPIImportPrefix + KubeCoreAPIPrefix + rest == path;
    assert path[..|KubeAPIImportPrefix|] == KubeAPIImportPrefix;
    assert path[|KubeAPIImportPrefix|..] == tail;
    assert SplitAfter(path, KubeAPIImportPrefix)[1] == tail;
    assert tail[..|KubeCoreAPIPrefix|] == KubeCoreAPIPrefix;
    assert tail[|KubeCoreAPIPrefix|..] == rest;
  }

  /** A group path `k8s.io/api/<rest>` resolves to `<rest>` when `<rest>`
      does not start with `c` and holds no `k`: a shortcut for group paths
      such as `apps/v1` and `extensions/v1beta1`, whose side conditions it
      discharges. Other groups (`*.k8s.io`) go through
      `APIVersionOfGroupPath` directly. */
  lemma GroupPathResolves(rest: string)
    requires rest != [] && rest[0] != 'c' && 'k' !in rest
    ensures IsKubeAPIImport(KubeAPIImportPrefix + rest)
    ensures APIVersionOf(KubeAPIImportPrefix + rest) == rest
  {
    FirstCharAbsentDoesNotContain(rest, KubeAPIImportPrefix);
    APIVersionOfGroupPath(rest);
  }

  // `k8s.io/api/core/v1` names `v1`, `k8s.io/api/apps/v1` names `apps/v1`
  // and `k8s.io/api/extensions/v1beta1` names `extensions/v1beta1`.

  lemma CoreImportResolves()
    ensures APIVersionOf(KubeAPIImportPrefix + KubeCoreAPIPrefix + "v1") == "v1"
  {
    var rest := "v1";
    assert 'k' !in KubeCoreAPIPrefix + rest;
    FirstCharAbsentDoesNotContain(KubeCoreAPIPrefix + rest, KubeAPIImportPrefix);
    ShorterDoesNotContain(rest, KubeCoreAPIPrefix);
    APIVersionOfCorePath(rest);
  }

  lemma AppsImportResolves()
    ensures APIVersionOf(KubeAPIImportPrefix + "apps/v1") == "apps/v1"
  {
    GroupPathResolves("apps/v1");
  }

  lemma ExtensionsImportResolves()
    ensures APIVersionOf(KubeAPIImportPrefix + "extensions/v1beta1") == "extensions/v1beta1"
  {
    GroupPathResolves("extensions/v1beta1");
  }

  /** Without an explicit name, an import binds the final `/`-separated
      segment of its path. */
  lemma ImpliedNameIsFinalSegment(imp: ImportSpec)
    requires imp.name.None?
    ensures var path := ImportPath(imp); var n := LocalName(imp);
      && '/' !in n
      && |n| <= |path|
      && path[|path| - |n|..] == n
      && (|n| == |path| || path[|path| - |n| - 1] == '/')
  {
    LastPieceIsFinalSegment(ImportPath(imp), '/');
  }

  /** An alias is in a file's map exactly when some import binds it. */
  lemma {:induction false} ImportMapKeys(imports: seq<ImportSpec>, alias: string)
    ensures alias in ImportMapOf(imports) <==> exists i :: 0 <= i < |imports| && Binds(imports[i], alias)
    decreases |imports|
  {
    if imports != [] {
      var init := imports[..|imports| - 1];
      ImportMapKeys(init, alias);
      if exists i :: 0 <= i < |init| && Binds(init[i], alias) {
        var i :| 0 <= i < |init| && Binds(init[i], alias);
        assert imports[i] == init[i];
      }
      if exists i :: 0 <= i < |imports| && Binds(imports[i], alias) {
        var i :| 0 <= i < |imports| && Binds(imports[i], alias);
        if i < |init| {
          assert init[i] == imports[i];
        }
      }
    }
  }

  /** The map holds, for an alias, the API version of the last import that
      binds it: a later import shadows an earlier one. */
  lemma {:induction false} ImportMapLastWins(imports: seq<ImportSpec>, i: nat, alias: string)
    requires i < |imports| && Binds(imports[i], alias)
    requires forall j :: i < j < |imports| ==> !Binds(imports[j], alias)
    ensures alias in ImportMapOf(imports)
    ensures ImportMapOf(imports)[alias] == APIVersionOf(ImportPath(imports[i]))
    decreases |imports|
  {
    if i < |imports| - 1 {
      var init := imports[..|imports| - 1];
      forall j | i < j < |init|
        ensures !Binds(init[j], alias)
      {
        assert init[j] == imports[j];
      }
      assert init[i] == imports[i];
      ImportMapLastWins(init, i, alias);
    }
  }

  /** An import outside `k8s.io/api/` leaves the map as it is. */
  lemma {:induction false} NonKubeImportIgnored(pre: seq<ImportSpec>, imp: ImportSpec, post: seq<ImportSpec>)
    requires !IsKubeAPIImport(ImportPath(imp))
    ensures ImportMapOf(pre + [imp] + post) == ImportMapOf(pre + post)
    decreases |post|
  {
    if post == [] {
      var s := pre + [imp] + post;
      assert s == pre + [imp];
      assert s[..|s| - 1] == pre;
      assert s[|s| - 1] == imp;
      assert pre + post == pre;
    } else {
      var init := post[..|post| - 1];
      var s := pre + [imp] + post;
      var t := pre + post;
      assert s[..|s| - 1] == pre + [imp] + init;
      assert t[..|t| - 1] == pre + init;
      assert s[|s| - 1] == t[|t| - 1];
      NonKubeImportIgnored(pre, imp, init);
    }
  }

  // ---------------------------------------------------------------------
  // Reference matching

  /** A node yields a candidate exactly when it is a selector whose base is
      an identifier bound in the map; the candidate carries the bound API
      version, the selected name as kind and the selector's position. */
  lemma OnlyBoundSelectorsAreCandidates(importMap: map<string, string>, node: Node)
    ensures CandidateOf(importMap, node).Some? <==> node.SelectorExpr? && node.x.Ident? && node.x.name in importMap
    ensures CandidateOf(importMap, node).Some? ==>
      CandidateOf(importMap, node).value == Candidate(importMap[node.x.name], node.sel, node.pos)
  {
  }

  // ---------------------------------------------------------------------
  // Decision

  /** Removal is checked first: when it fires, the verdict is removal even
      if the deprecation threshold is also reached. */
  lemma RemovalTakesPrecedence(info: DeprecationInfo, cfg: Config)
    requires !cfg.ignoreRemoval && Reached(cfg.targetVersion, info.removedIn)
    ensures Decide(info, cfg) == Some(Removed)
  {
  }

  /** With removal switched off no removal is reported; the deprecation
      check still runs and decides alone. */
  lemma IgnoreRemovalFallsThrough(info: DeprecationInfo, cfg: Config)
    requires cfg.ignoreRemoval
    ensures Decide(info, cfg) != Some(Removed)
    ensures Decide(info, cfg) == Some(Deprecated) <==> !cfg.ignoreDeprecation && Reached(cfg.targetVersion, info.deprecatedIn)
  {
  }

  /** With deprecation switched off no deprecation is reported, and the
      removal check is unaffected. */
  lemma IgnoreDeprecationKeepsRemoval(info: DeprecationInfo, cfg: Config)
    requires cfg.ignoreDeprecation
    ensures Decide(info, cfg) != Some(Deprecated)
    ensures Decide(info, cfg) == Some(Removed) <==> !cfg.ignoreRemoval && Reached(cfg.targetVersion, info.removedIn)
  {
  }

  /** With both flags set nothing is ever reported. */
  lemma BothIgnoredReportsNothing(table: seq<DeprecationInfo>, c: Candidate, cfg: Config)
    requires cfg.ignoreRemoval && cfg.ignoreDeprecation
    ensures ScanTable(table, c, cfg) == None
  {
    NoRecordFires(table, c, cfg);
  }

  /** A record none of whose thresholds fires contributes nothing to a scan. */
  lemma {:induction false} NoRecordFires(table: seq<DeprecationInfo>, c: Candidate, cfg: Config)
    requires forall i :: 0 <= i < |table| ==> Decide(table[i], cfg) == None
    ensures ScanTable(table, c, cfg) == None
    decreases |table|
  {
    if table != [] {
      assert Decide(table[0], cfg) == None;
      NoRecordFires(table[1..], c, cfg);
    }
  }

  /** A valid threshold fires for a valid target exactly when it is at or
      before the target: the boundary is inclusive. */
  lemma ThresholdIsInclusive(target: string, threshold: string)
    requires Semver.IsValid(target) && Semver.IsValid(threshold)
    ensures Reached(target, threshold) <==> Semver.AtMost(threshold, target)
    ensures Reached(threshold, threshold)
  {
    Semver.CompareAntisymmetric(target, threshold);
    Semver.CompareZeroIffEqual(threshold, threshold);
  }

  /** A threshold reached by a target is reached by every later target. */
  lemma ReachedStaysReached(target: string, later: string, threshold: string)
    requires Reached(target, threshold) && Semver.AtMost(target, later)
    ensures Reached(later, threshold)
  {
    Semver.CompareAntisymmetric(target, threshold);
    Semver.CompareAntisymmetric(later, threshold);
    Semver.CompareTransitive(threshold, target, later);
  }

  /** Moving the target later never withdraws a report, and a removal stays
      a removal. */
  lemma LaterTargetStillReported(info: DeprecationInfo, cfg: Config, later: string)
    requires Semver.AtMost(cfg.targetVersion, later)
    requires Decide(info, cfg).Some?
    ensures Decide(info, cfg.(targetVersion := later)).Some?
    ensures Decide(info, cfg) == Some(Removed) ==> Decide(info, cfg.(targetVersion := later)) == Some(Removed)
  {
    if Decide(info, cfg) == Some(Removed) {
      ReachedStaysReached(cfg.targetVersion, later, info.removedIn);
    } else {
      ReachedStaysReached(cfg.targetVersion, later, info.deprecatedIn);
    }
  }

  /** A target before version `v` triggers nothing in a record whose
      thresholds are all at or after `v`. */
  lemma NotYetReached(info: DeprecationInfo, cfg: Config, v: string)
    requires ThresholdsNotBefore(info, v)
    requires Semver.Compare(cfg.targetVersion, v) < 0
    ensures Decide(info, cfg) == None
  {
    if info.removedIn != "" {
      Semver.CompareTransitive(cfg.targetVersion, v, info.removedIn);
    }
    if info.deprecatedIn != "" {
      Semver.CompareTransitive(cfg.targetVersion, v, info.deprecatedIn);
    }
  }

  /** The two messages differ, so a report always tells removal from
      deprecation: they part at the word after "<apiVersion>:<kind> is ". */
  lemma MessageTellsVerdict(apiVersion: string, kind: string, info: DeprecationInfo)
    ensures var k := |apiVersion| + |kind| + 5;
      && k < |Message(Removed, apiVersion, kind, info)| && Message(Removed, apiVersion, kind, info)[k] == 'r'
      && k < |Message(Deprecated, apiVersion, kind, info)| && Message(Deprecated, apiVersion, kind, info)[k] == 'd'
    ensures Message(Removed, apiVersion, kind, info) != Message(Deprecated, apiVersion, kind, info)
  {
    var head := apiVersion + ":" + kind + " is ";
    var tail := ". Migrate to " + info.replacementAPI + ":" + kind + ".";
    WordAt(head, "removed in ", info.removedIn, tail);
    WordAt(head, "deprecated in ", info.deprecatedIn, tail);
  }

  /** In `head + word + x + tail` (built left to right, as a message is),
      the first letter of `word` sits right after `head`. */
  lemma WordAt(head: string, word: string, x: string, tail: string)
    requires word != []
    ensures |head| < |head + word + x + tail|
    ensures (head + word + x + tail)[|head|] == word[0]
  {
    var p1 := head + word;
    assert p1[|head|] == word[0];
    var p2 := p1 + x;
    assert p2[|head|] == word[0];
  }


  // ---------------------------------------------------------------------
  // The table scan and the keyed map

  /** In a table without duplicate keys, the scan for a candidate gives the
      report of the one record with the candidate's key. */
  lemma {:induction false} ScanFindsRecord(table: seq<DeprecationInfo>, i: nat, c: Candidate, cfg: Config)
    requires NoDuplicateKeys(table) && i < |table|
    requires KeyOf(table[i]) == DeprecationKey(c.apiVersion, c.kind)
    ensures ScanTable(table, c, cfg) == Report(table[i], c, cfg)
    decreases |table|
  {
    if i == 0 {
      if Report(table[0], c, cfg).None? {
        forall j | 0 <= j < |table[1..]|
          ensures KeyOf(table[1..][j]) != DeprecationKey(c.apiVersion, c.kind)
        {
          assert table[1..][j] == table[j + 1];
        }
        ScanWithoutRecord(table[1..], c, cfg);
      }
    } else {
      assert KeyOf(table[0]) != KeyOf(table[i]);
      var rest := table[1..];
      assert rest[i - 1] == table[i];
      forall a, b | 0 <= a < b < |rest|
        ensures KeyOf(rest[a]) != KeyOf(rest[b])
      {
        assert rest[a] == table[a + 1] && rest[b] == table[b + 1];
      }
      ScanFindsRecord(rest, i - 1, c, cfg);
    }
  }

  /** A candidate whose key no record has is never reported. */
  lemma {:induction false} ScanWithoutRecord(table: seq<DeprecationInfo>, c: Candidate, cfg: Config)
    requires forall i :: 0 <= i < |table| ==> KeyOf(table[i]) != DeprecationKey(c.apiVersion, c.kind)
    ensures ScanTable(table, c, cfg) == None
    decreases |table|
  {
    if table != [] {
      assert KeyOf(table[0]) != DeprecationKey(c.apiVersion, c.kind);
      forall j | 0 <= j < |table[1..]|
        ensures KeyOf(table[1..][j]) != DeprecationKey(c.apiVersion, c.kind)
      {
        assert table[1..][j] == table[j + 1];
      }
      ScanWithoutRecord(table[1..], c, cfg);
    }
  }

  /** Without duplicate keys, scanning the table and looking the key up in
      the map built from it give the same report. */
  lemma ScanAgreesWithMap(table: seq<DeprecationInfo>, c: Candidate, cfg: Config)
    requires NoDuplicateKeys(table)
    ensures var key := DeprecationKey(c.apiVersion, c.kind);
      var m := BuildMap(table);
      ScanTable(table, c, cfg) == if key in m then Report(m[key], c, cfg) else None
  {
    var key := DeprecationKey(c.apiVersion, c.kind);
    if i :| 0 <= i < |table| && KeyOf(table[i]) == key {
      BuildMapLookup(table, i);
      ScanFindsRecord(table, i, c, cfg);
    } else {
      BuildMapHasNoOtherKey(table, key);
      ScanWithoutRecord(table, c, cfg);
    }
  }

  // ---------------------------------------------------------------------
  // Files and the run

  /** Reports follow the traversal order and are not deduplicated: the
      diagnostics of `a + b` are those of `a` followed by those of `b`. */
  lemma {:induction false} NodesDiagnosticsAppend(table: seq<DeprecationInfo>, importMap: map<string, string>, a: seq<Node>, b: seq<Node>, cfg: Config)
    ensures NodesDiagnostics(table, importMap, a + b, cfg)
      == NodesDiagnostics(table, importMap, a, cfg) + NodesDiagnostics(table, importMap, b, cfg)
    decreases |b|
  {
    if b == [] {
      assert a + b == a;
    } else {
      var init := b[..|b| - 1];
      assert (a + b)[..|a + b| - 1] == a + init;
      assert (a + b)[|a + b| - 1] == b[|b| - 1];
      NodesDiagnosticsAppend(table, importMap, a, init, cfg);
    }
  }

  /** Each node gives at most one diagnostic. */
  lemma {:induction false} AtMostOnePerNode(table: seq<DeprecationInfo>, importMap: map<string, string>, nodes: seq<Node>, cfg: Config)
    ensures |NodesDiagnostics(table, importMap, nodes, cfg)| <= |nodes|
    decreases |nodes|
  {
    if nodes != [] {
      AtMostOnePerNode(table, importMap, nodes[..|nodes| - 1], cfg);
    }
  }

  /** A table whose thresholds are all at or after `v` reports nothing for
      any file when the target is before `v`. */
  lemma {:induction false} NothingBeforeEarliestThreshold(table: seq<DeprecationInfo>, files: seq<SourceFile>, cfg: Config, v: string)
    requires forall i :: 0 <= i < |table| ==> ThresholdsNotBefore(table[i], v)
    requires Semver.Compare(cfg.targetVersion, v) < 0
    ensures RunDiagnostics(table, files, cfg) == []
    decreases |files|
  {
    if files != [] {
      NothingBeforeEarliestThreshold(table, files[..|files| - 1], cfg, v);
      var f := files[|files| - 1];
      NoNodeReported(table, ImportMapOf(f.imports), f.nodes, cfg, v);
    }
  }

  lemma {:induction false} NoNodeReported(table: seq<DeprecationInfo>, importMap: map<string, string>, nodes: seq<Node>, cfg: Config, v: string)
    requires forall i :: 0 <= i < |table| ==> ThresholdsNotBefore(table[i], v)
    requires Semver.Compare(cfg.targetVersion, v) < 0
    ensures NodesDiagnostics(table, importMap, nodes, cfg) == []
    decreases |nodes|
  {
    if nodes != [] {
      NoNodeReported(table, importMap, nodes[..|nodes| - 1], cfg, v);
      var node := nodes[|nodes| - 1];
      forall i | 0 <= i < |table|
        ensures Decide(table[i], cfg) == None
      {
        NotYetReached(table[i], cfg, v);
      }
      if c :| CandidateOf(importMap, node) == Some(c) {
        NoRecordFires(table, c, cfg);
      }
    }
  }

  lemma Parses1_8_0()
    ensures Semver.Parse("v1.8.0") == Some(Semver.Version(1, 8, 0))
  {
    Semver.DigitChars();
    Semver.ParseFormat(Semver.Version(1, 8, 0));
    assert Semver.Format(Semver.Version(1, 8, 0)) == "v1.8.0";
  }

  lemma Parses1_15_0()
    ensures Semver.Parse("v1.15.0") == Some(Semver.Version(1, 15, 0))
  {
    Semver.DigitChars();
    Semver.ParseFormat(Semver.Version(1, 15, 0));
    assert Semver.NatToString(15) == "15";
    assert Semver.Format(Semver.Version(1, 15, 0)) == "v1.15.0";
  }

  /** With target v1.8.0 the table reports nothing, in any file. */
  lemma TargetV1_8_0ReportsNothing(files: seq<SourceFile>, cfg: Config)
    requires cfg.targetVersion == "v1.8.0"
    ensures RunDiagnostics(DeprecationInfoList, files, cfg) == []
  {
    TableThresholdsWellFormed();
    Parses1_8_0();
    Parses1_9_0();
    NothingBeforeEarliestThreshold(DeprecationInfoList, files, cfg, "v1.9.0");
  }

  // ---------------------------------------------------------------------
  // Alias independence

  /** The import with its explicit name `a` changed to `b`. */
  function RenameImport(imp: ImportSpec, a: string, b: string): ImportSpec {
    if imp.name == Some(a) then imp.(name := Some(b)) else imp
  }

  function RenameImports(imports: seq<ImportSpec>, a: string, b: string): (r: seq<ImportSpec>)
    ensures |r| == |imports|
    ensures forall i :: 0 <= i < |imports| ==> r[i] == RenameImport(imports[i], a, b)
  {
    if imports == [] then []
    else RenameImports(imports[..|imports| - 1], a, b) + [RenameImport(imports[|imports| - 1], a, b)]
  }

  /** The node with a selector base `a` written `b` instead. */
  function RenameNode(node: Node, a: string, b: string): Node {
    match node
    case SelectorExpr(Ident(x), sel, pos) => if x == a then SelectorExpr(Ident(b), sel, pos) else node
    case _ => node
  }

  function RenameNodes(nodes: seq<Node>, a: string, b: string): (r: seq<Node>)
    ensures |r| == |nodes|
    ensures forall i :: 0 <= i < |nodes| ==> r[i] == RenameNode(nodes[i], a, b)
  {
    if nodes == [] then []
    else RenameNodes(nodes[..|nodes| - 1], a, b) + [RenameNode(nodes[|nodes| - 1], a, b)]
  }

  /** `node` is a selector whose base is the identifier `name`. */
  predicate Mentions(node: Node, name: string) {
    node.SelectorExpr? && node.x == Ident(name)
  }

  /** `m2` is `m` with the key `a` moved to `b`. */
  ghost predicate RenamedMap(m: map<string, string>, m2: map<string, string>, a: string, b: string) {
    && b !in m && a !in m2
    && (a in m <==> b in m2)
    && (a in m ==> m2[b] == m[a])
    && forall x :: x != a && x != b ==> (x in m2 <==> x in m) && (x in m ==> m2[x] == m[x])
  }

  /** The map after one more import. */
  function AddImport(m: map<string, string>, imp: ImportSpec): map<string, string> {
    var path := ImportPath(imp);
    if IsKubeAPIImport(path) then m[LocalName(imp) := APIVersionOf(path)] else m
  }

  /** One import, renamed, keeps the maps renamed. */
  lemma RenamedStep(m: map<string, string>, m2: map<string, string>, a: string, b: string, imp: ImportSpec)
    requires a != b && RenamedMap(m, m2, a, b)
    requires Binds(imp, a) ==> imp.name == Some(a)
    requires !Binds(imp, b)
    ensures RenamedMap(AddImport(m, imp), AddImport(m2, RenameImport(imp, a, b)), a, b)
  {
    var imp2 := RenameImport(imp, a, b);
    assert ImportPath(imp2) == ImportPath(imp);
    if IsKubeAPIImport(ImportPath(imp)) {
      if LocalName(imp) == a {
        assert LocalName(imp2) == b;
      } else {
        assert imp.name != Some(a);
        assert LocalName(imp2) == LocalName(imp) != b;
      }
    }
  }

  /** The map of a file whose imports end with `imp`. */
  lemma ImportMapOfSnoc(init: seq<ImportSpec>, imp: ImportSpec)
    ensures ImportMapOf(init + [imp]) == AddImport(ImportMapOf(init), imp)
  {
    assert (init + [imp])[..|init|] == init;
  }

  /** Renaming the explicit alias `a` to a fresh `b` moves the map entry of
      `a` to `b` and leaves every other entry alone. */
  lemma {:induction false} RenamedImportMap(imports: seq<ImportSpec>, a: string, b: string)
    requires a != b
    requires forall i :: 0 <= i < |imports| && Binds(imports[i], a) ==> imports[i].name == Some(a)
    requires forall i :: 0 <= i < |imports| ==> !Binds(imports[i], b)
    ensures RenamedMap(ImportMapOf(imports), ImportMapOf(RenameImports(imports, a, b)), a, b)
    decreases |imports|
  {
    if imports != [] {
      var n := |imports|;
      var init, imp := imports[..n - 1], imports[n - 1];
      assert imports == init + [imp];
      var init2, imp2 := RenameImports(init, a, b), RenameImport(imp, a, b);
      assert RenameImports(imports, a, b) == init2 + [imp2];
      forall i | 0 <= i < |init| && Binds(init[i], a)
        ensures init[i].name == Some(a)
      {
        assert init[i] == imports[i];
      }
      forall i | 0 <= i < |init|
        ensures !Binds(init[i], b)
      {
        assert init[i] == imports[i];
      }
      RenamedImportMap(init, a, b);
      RenamedStep(ImportMapOf(init), ImportMapOf(init2), a, b, imp);
      ImportMapOfSnoc(init, imp);
      ImportMapOfSnoc(init2, imp2);
    }
  }

  /** Under a renamed map, the renamed node yields the candidate the
      original node yields under the original map. */
  lemma RenamedCandidate(m: map<string, string>, m2: map<string, string>, a: string, b: string, node: Node)
    requires a != b && RenamedMap(m, m2, a, b) && !Mentions(node, b)
    ensures CandidateOf(m2, RenameNode(node, a, b)) == CandidateOf(m, node)
  {
  }

  lemma {:induction false} RenamedNodesDiagnostics(table: seq<DeprecationInfo>, m: map<string, string>, m2: map<string, string>,
                                                   a: string, b: string, nodes: seq<Node>, cfg: Config)
    requires a != b && RenamedMap(m, m2, a, b)
    requires forall i :: 0 <= i < |nodes| ==> !Mentions(nodes[i], b)
    ensures NodesDiagnostics(table, m2, RenameNodes(nodes, a, b), cfg) == NodesDiagnostics(table, m, nodes, cfg)
    decreases |nodes|
  {
    if nodes != [] {
      var n := |nodes|;
      var init := nodes[..n - 1];
      var renamed := RenameNodes(nodes, a, b);
      assert renamed[..n - 1] == RenameNodes(init, a, b);
      forall i | 0 <= i < |init|
        ensures !Mentions(init[i], b)
      {
        assert init[i] == nodes[i];
      }
      RenamedNodesDiagnostics(table, m, m2, a, b, init, cfg);
      RenamedCandidate(m, m2, a, b, nodes[n - 1]);
    }
  }

  /** Renaming an import's explicit alias `a` to a name `b` that nothing in
      the file uses, in the import and in every selector written with it,
      changes no diagnostic: what fires depends on the import path, not on
      the alias. */
  lemma AliasIndependence(table: seq<DeprecationInfo>, f: SourceFile, a: string, b: string, cfg: Config)
    requires a != b
    requires forall i :: 0 <= i < |f.imports| && Binds(f.imports[i], a) ==> f.imports[i].name == Some(a)
    requires forall i :: 0 <= i < |f.imports| ==> !Binds(f.imports[i], b)
    requires forall i :: 0 <= i < |f.nodes| ==> !Mentions(f.nodes[i], b)
    ensures FileDiagnostics(table, SourceFile(RenameImports(f.imports, a, b), RenameNodes(f.nodes, a, b)), cfg)
         == FileDiagnostics(table, f, cfg)
  {
    RenamedImportMap(f.imports, a, b);
    RenamedNodesDiagnostics(table, ImportMapOf(f.imports), ImportMapOf(RenameImports(f.imports, a, b)), a, b, f.nodes, cfg);
  }

  // ---------------------------------------------------------------------
  // Empty thresholds: the source's comparison against the model's test

  /** As written, the comparison alone lets an empty threshold fire for
      every valid target; the model's test never fires on it. */
  lemma EmptyThresholdFiresAsWritten(target: string)
    requires Semver.IsValid(target)
    ensures ReachedAsWritten(target, "")
    ensures !Reached(target, "")
  {
    assert !Semver.IsValid("");
  }

  /** On a present, valid threshold the two tests agree. */
  lemma ReachedAgreesOnValidThresholds(target: string, threshold: string)
    requires Semver.IsValid(threshold)
    ensures Reached(target, threshold) <==> ReachedAsWritten(target, threshold)
  {
  }

  /** On records whose thresholds are valid or absent, the model's decision
      is the source's decision except that absent thresholds stay silent:
      the two agree whenever both thresholds are present. */
  lemma DecideAgreesWhenThresholdsPresent(info: DeprecationInfo, cfg: Config)
    requires Semver.IsValid(info.deprecatedIn) && Semver.IsValid(info.removedIn)
    ensures Decide(info, cfg) == DecideAsWritten(info, cfg)
  {
    ReachedAgreesOnValidThresholds(cfg.targetVersion, info.deprecatedIn);
    ReachedAgreesOnValidThresholds(cfg.targetVersion, info.removedIn);
  }

  /** The first record of the table: apps/v1 Deployment, neither deprecated
      nor removed. */
  const AppsDeploymentInfo: DeprecationInfo := DeprecationInfo("apps/v1", "Deployment", "", "", "")

  lemma AppsDeploymentRecord()
    ensures DeprecationInfoList[0] == AppsDeploymentInfo
  {
  }

  /** As written, a reference to apps/v1 Deployment is reported as removed
      at every valid target, with an empty version and an empty
      replacement; the model reports nothing. */
  lemma UnchangedAPIReportedAsWritten(cfg: Config)
    requires Semver.IsValid(cfg.targetVersion) && !cfg.ignoreRemoval
    ensures DecideAsWritten(AppsDeploymentInfo, cfg) == Some(Removed)
    ensures Message(Removed, "apps/v1", "Deployment", AppsDeploymentInfo)
      == "apps/v1" + ":" + "Deployment" + " is removed in " + "" + ". Migrate to " + "" + ":" + "Deployment" + "."
    ensures Decide(AppsDeploymentInfo, cfg) == None
  {
    EmptyThresholdFiresAsWritten(cfg.targetVersion);
  }
}
