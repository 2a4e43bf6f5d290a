# k8sdepr detection engine in Dafny

k8sdepr is a Go static-analysis pass. It reports references to Kubernetes API
types that are deprecated or removed in a chosen Kubernetes version (the
`targetVersion` flag). It resolves each file's imports of `k8s.io/api/...` to
an API version such as `apps/v1` or `extensions/v1beta1`. Each selector
expression `alias.Kind` whose alias is such an import is then looked up in a
table of deprecation records. The pass reports "removed" when the target has
reached the record's removal version, and "deprecated" when it has reached the
deprecation version. The `ignoreRemoval` and `ignoreDeprecation` flags switch
either check off.

The project has these modules:

- `Wrappers` (wrappers.dfy): `Option` and `Result`.
- `GoStrings` (go_strings.dfy): the parts of Go's `strings` package that the
  pass uses. `HasPrefix` is a definition used directly. `ReplaceAll` of one
  character, `SplitAfter` and `Split` each come with an inverse or reference
  property.
- `Semver` (semver.dfy): the subset of `golang.org/x/mod/semver` that the pass
  needs. It covers validity of `vMAJOR.MINOR.PATCH`, and `Compare`, where every
  invalid string (the empty one included) ranks below every valid one. It also
  proves that parsing and formatting are inverse and that the order is total.
- `VersionList` (version_list.dfy): the record type, the key type and the
  29-record table. It proves the table has no duplicate keys and that its
  thresholds are well formed. `DeprecationCache` is a class that models the
  lazily built, package-level map `deprecationMap` and `GetDeprecationMap`.
- `Analyzer` (analyzer.dfy): `run`. The import loop is `BuildImportMap`. The
  selector test is `CandidateOf`. The removal-then-deprecation check of one
  record is `Decide`. The table loop for one reference is `CheckCandidate`. The
  whole pass over the files is `Run`. Each method is proved equal to a
  specification function: `ImportMapOf`, `ScanTable` and `RunDiagnostics`.
- `AnalyzerProperties` (analyzer_properties.dfy): what the pass promises.
  - How import paths resolve, and which alias wins.
  - Renaming an import alias changes no diagnostic.
  - Which nodes are candidates.
  - Removal takes precedence, and each flag switches off its check.
  - Thresholds are inclusive and monotone in the target.
  - The linear scan agrees with a lookup in the map that `GetDeprecationMap`
    builds.
  - At most one diagnostic per reference.
  - Nothing is reported before `v1.9.0`.
- `AnalyzerTestdata` (analyzer_testdata.dfy): the repository's test package
  `a.go` (the `ok`, `deprecation` and `removal` variants). It is modelled as
  its imports and the eleven selector expressions it contains. The lemmas
  derive the exact diagnostics for each test's target version (v1.8.0, v1.15.0,
  v1.16.0 and v1.17.0).

The analysis framework is abstracted away. A file is its import specs plus the
sequence of nodes that `ast.Inspect` visits. Flags are a `Config` value. The
record table is a parameter of `Run`, and is instantiated with
`DeprecationInfoList` in the lemmas about the real table.

## Model

| member | source | states |
|---|---|---|
| GoStrings.ShorterDoesNotContain | pkg/analyzer/analyzer.go:53 | a string shorter than the separator never contains it |
| GoStrings.FirstCharAbsentDoesNotContain | pkg/analyzer/analyzer.go:53 | a string lacking the separator's first character does not contain the separator |
| GoStrings.RemoveAll | pkg/analyzer/analyzer.go:48 | removing every quote leaves no quote, adds no character and never lengthens the string |
| GoStrings.RemoveAllAppend | pkg/analyzer/analyzer.go:48 | quote removal distributes over concatenation |
| GoStrings.RemoveAllAbsent | pkg/analyzer/analyzer.go:48 | a string without quotes is unchanged by quote removal |
| GoStrings.Unquote | pkg/analyzer/analyzer.go:48 | removing the quotes from a quoted import literal yields the path inside it |
| GoStrings.SplitAfter | pkg/analyzer/analyzer.go:53-55 | SplitAfter yields at least one piece; when the string starts with the separator the first piece is the separator and a second piece exists; without an occurrence the string is the only piece |
| GoStrings.SplitAfterConcat | pkg/analyzer/analyzer.go:53-55 | the SplitAfter pieces concatenate back to the original string |
| GoStrings.SecondPieceIsPrefixOfRest | pkg/analyzer/analyzer.go:53-55 | after a leading separator, piece [1] is a prefix of what follows it (the whole remainder when the separator does not recur) |
| GoStrings.Split | pkg/analyzer/analyzer.go:62 | Split yields at least one piece and no piece contains the separator |
| GoStrings.SplitJoin | pkg/analyzer/analyzer.go:62 | joining the Split pieces with the separator gives back the string |
| GoStrings.SplitNoSeparator | pkg/analyzer/analyzer.go:62 | a string without the separator splits into itself alone |
| GoStrings.SplitAtFirstSeparator | pkg/analyzer/analyzer.go:62 | splitting `x + sep + y` with no separator in `x` gives `x` followed by the pieces of `y` |
| GoStrings.JoinSplit | pkg/analyzer/analyzer.go:62 | Split inverts Join over pieces free of the separator |
| GoStrings.LastPiece | pkg/analyzer/analyzer.go:62-63 | the last element of the split contains no separator |
| GoStrings.JoinLast | pkg/analyzer/analyzer.go:62-63 | a join of two or more pieces ends with the separator and the last piece |
| GoStrings.LastPieceIsFinalSegment | pkg/analyzer/analyzer.go:62-63 | the last piece is a suffix of the path, preceded by `/` unless it is the whole path |
| Semver.DigitChar | pkg/analyzer/analyzer.go:40 | every digit value has a digit character |
| Semver.DigitValue | pkg/analyzer/analyzer.go:40 | a digit character's value is below ten and maps back to the same character |
| Semver.NatToString | pkg/analyzer/analyzer.go:40 | the decimal form of a number is a canonical numeral and starts with `0` exactly for zero |
| Semver.NatToStringValue | pkg/analyzer/analyzer.go:40 | reading back the decimal form of n gives n |
| Semver.LeadingNonZeroIsPositive | pkg/analyzer/analyzer.go:40 | a digit string without a leading zero denotes a positive number |
| Semver.NumeralIsCanonical | pkg/analyzer/analyzer.go:40 | a numeral without a leading zero is the decimal form of its own value |
| Semver.DigitChars | pkg/analyzer/analyzer.go:40 | the ten digit characters in order |
| Semver.NumeralHasNoDot | pkg/analyzer/analyzer.go:40 | a numeral holds no dot, so it cannot straddle a version component boundary |
| Semver.ParseFormat | pkg/analyzer/analyzer.go:40 | every version formats to a valid string that parses back to it |
| Semver.FormatParse | pkg/analyzer/analyzer.go:40 | every valid version string is the formatting of its parse, so a valid version has one spelling |
| Semver.ValidShape | pkg/analyzer/analyzer.go:40 | a valid version string is `v` followed by three dot-separated numerals, and parses to their values |
| Semver.JoinThree | pkg/analyzer/analyzer.go:40 | joining three pieces places one separator between neighbours |
| Semver.CompareVersions | pkg/analyzer/analyzer.go:93 | comparison of versions is -1, 0 or 1 and is 0 exactly for equal versions |
| Semver.Compare | pkg/analyzer/analyzer.go:93 | string comparison is -1, 0 or 1, and a valid version is above every invalid string |
| Semver.CompareAntisymmetric | pkg/analyzer/analyzer.go:93 | swapping the operands negates the comparison |
| Semver.CompareTransitive | pkg/analyzer/analyzer.go:93 | comparison is transitive, strictly when either step is strict |
| Semver.CompareZeroIffEqual | pkg/analyzer/analyzer.go:93 | two valid version strings compare equal if and only if they are the same string |
| Semver.AtMostIsTotalOrder | pkg/analyzer/analyzer.go:93 | on valid versions, at-most is reflexive, antisymmetric, transitive and total |
| VersionList.TableRowsUnique0 | pkg/analyzer/version_list.go:41-87 | records 0 to 2 have keys that no later record repeats |
| VersionList.TableRowsUnique3 | pkg/analyzer/version_list.go:41-87 | records 3 to 5 have keys that no later record repeats |
| VersionList.TableRowsUnique6 | pkg/analyzer/version_list.go:41-87 | records 6 to 9 have keys that no later record repeats |
| VersionList.TableRowsUnique10 | pkg/analyzer/version_list.go:41-87 | records 10 to 14 have keys that no later record repeats |
| VersionList.TableRowsUnique15 | pkg/analyzer/version_list.go:41-87 | records 15 to the last have keys that no later record repeats |
| VersionList.NoDuplicatesFromRows | pkg/analyzer/version_list.go:12-15 | a list in which no record's key recurs later has pairwise distinct keys |
| VersionList.TableHasNoDuplicateKeys | pkg/analyzer/version_list.go:41-87 | no two records of the table share an (apiVersion, kind) key |
| VersionList.Parses1_9_0 | pkg/analyzer/version_list.go:48 | the threshold `v1.9.0` is valid and denotes 1.9.0 |
| VersionList.Parses1_10_0 | pkg/analyzer/version_list.go:41-87 | the threshold `v1.10.0` is valid and denotes 1.10.0 |
| VersionList.Parses1_14_0 | pkg/analyzer/version_list.go:41-87 | the threshold `v1.14.0` is valid and denotes 1.14.0 |
| VersionList.Parses1_16_0 | pkg/analyzer/version_list.go:48 | the threshold `v1.16.0` is valid and denotes 1.16.0 |
| VersionList.Parses1_17_0 | pkg/analyzer/version_list.go:86 | the threshold `v1.17.0` is valid and denotes 1.17.0 |
| VersionList.Parses1_19_0 | pkg/analyzer/version_list.go:41-87 | the threshold `v1.19.0` is valid and denotes 1.19.0 |
| VersionList.Parses1_20_0 | pkg/analyzer/version_list.go:41-87 | the threshold `v1.20.0` is valid and denotes 1.20.0 |
| VersionList.Parses1_22_0 | pkg/analyzer/version_list.go:41-87 | the threshold `v1.22.0` is valid and denotes 1.22.0 |
| VersionList.TableUsesKnownThresholdPairs | pkg/analyzer/version_list.go:41-87 | every record's (deprecated, removed) pair is one of the few pairs the table uses |
| VersionList.ThresholdPairsWellFormed | pkg/analyzer/version_list.go:41-87 | each used pair is well formed: each threshold is valid or empty, removal is not before deprecation, and neither is before v1.9.0 |
| VersionList.WellFormedFromKnownPairs | pkg/analyzer/version_list.go:41-87 | a list built from used pairs has only well-formed records |
| VersionList.TableThresholdsWellFormed | pkg/analyzer/version_list.go:41-87 | every record of the table has well-formed thresholds and none earlier than v1.9.0 |
| VersionList.BuildMap | pkg/analyzer/version_list.go:24-35 | every entry of the built map is stored under its own key and comes from the list |
| VersionList.BuildMapHasEveryKey | pkg/analyzer/version_list.go:24-35 | every record's key is in the built map |
| VersionList.BuildMapHasNoOtherKey | pkg/analyzer/version_list.go:24-35 | a key no record has is absent from the built map |
| VersionList.BuildMapLastWins | pkg/analyzer/version_list.go:24-35 | the map holds, for a key, the last record with that key |
| VersionList.BuildMapLookup | pkg/analyzer/version_list.go:24-35 | over a list without duplicate keys, looking up a record's key yields that record |
| VersionList.DeprecationCache.constructor | pkg/analyzer/version_list.go:17 | a fresh cache holds its record list and no map yet |
| VersionList.DeprecationCache.GetDeprecationMap | pkg/analyzer/version_list.go:19-37 | returns the map of the record list, stores it, and never replaces a map already stored |
| Analyzer.BuildImportMap | pkg/analyzer/analyzer.go:44-66 | the import loop yields exactly the alias map specified by the imports in order |
| Analyzer.CheckCandidate | pkg/analyzer/analyzer.go:89-109 | the table loop yields the diagnostic of the first record with the reference's key whose check fires, or none |
| Analyzer.Run | pkg/analyzer/analyzer.go:39-115 | an invalid target is the error `invalid semver: <target>`; otherwise the diagnostics of every file's references, in file and traversal order |
| AnalyzerProperties.APIVersionOfGroupPath | pkg/analyzer/analyzer.go:53-56 | a `k8s.io/api/<group>/<version>` path names `<group>/<version>` |
| AnalyzerProperties.APIVersionOfCorePath | pkg/analyzer/analyzer.go:53-56 | a `k8s.io/api/core/<version>` path names `<version>` alone |
| AnalyzerProperties.GroupPathResolves | pkg/analyzer/analyzer.go:53-56 | a group path not starting with `c` and without `k` names itself |
| AnalyzerProperties.CoreImportResolves | pkg/analyzer/analyzer.go:53-56 | `k8s.io/api/core/v1` names `v1` |
| AnalyzerProperties.AppsImportResolves | pkg/analyzer/analyzer.go:53-56 | `k8s.io/api/apps/v1` names `apps/v1` |
| AnalyzerProperties.ExtensionsImportResolves | pkg/analyzer/analyzer.go:53-56 | `k8s.io/api/extensions/v1beta1` names `extensions/v1beta1` |
| AnalyzerProperties.ImpliedNameIsFinalSegment | pkg/analyzer/analyzer.go:61-64 | without an explicit name, the alias is the last `/`-segment of the path: a suffix with no `/` that is preceded by `/` or is the whole path |
| AnalyzerProperties.ImportMapKeys | pkg/analyzer/analyzer.go:44-66 | an alias is in the map if and only if some Kubernetes API import binds it |
| AnalyzerProperties.ImportMapLastWins | pkg/analyzer/analyzer.go:58-65 | an alias maps to the API version of the last import that binds it |
| AnalyzerProperties.NonKubeImportIgnored | pkg/analyzer/analyzer.go:50-52 | inserting an import outside `k8s.io/api/` anywhere leaves the map unchanged |
| AnalyzerProperties.OnlyBoundSelectorsAreCandidates | pkg/analyzer/analyzer.go:68-85 | a node is looked up if and only if it is `ident.Sel` with the identifier in the alias map, and then with that alias's API version, the selector as kind and the node's position |
| AnalyzerProperties.RemovalTakesPrecedence | pkg/analyzer/analyzer.go:93-100 | when removal is enabled and reached, the verdict is removal whatever the deprecation threshold |
| AnalyzerProperties.IgnoreRemovalFallsThrough | pkg/analyzer/analyzer.go:93-101 | with ignoreRemoval set there is never a removal verdict, and a deprecation verdict exactly when deprecation is enabled and reached |
| AnalyzerProperties.IgnoreDeprecationKeepsRemoval | pkg/analyzer/analyzer.go:93-101 | with ignoreDeprecation set there is never a deprecation verdict, and a removal verdict exactly when removal is enabled and reached |
| AnalyzerProperties.BothIgnoredReportsNothing | pkg/analyzer/analyzer.go:89-109 | with both flags set no reference is reported |
| AnalyzerProperties.NoRecordFires | pkg/analyzer/analyzer.go:89-109 | when no record's check fires the scan reports nothing |
| AnalyzerProperties.ThresholdIsInclusive | pkg/analyzer/analyzer.go:93-101 | for valid versions a threshold is reached exactly when it is at or before the target, so a target equal to the threshold fires |
| AnalyzerProperties.ReachedStaysReached | pkg/analyzer/analyzer.go:93-101 | a threshold reached by a target is reached by every later target |
| AnalyzerProperties.LaterTargetStillReported | pkg/analyzer/analyzer.go:93-108 | a record that fires for a target fires for every later one, and a removal stays a removal |
| AnalyzerProperties.NotYetReached | pkg/analyzer/analyzer.go:93-101 | a record with no threshold before v does not fire for a target before v |
| AnalyzerProperties.MessageTellsVerdict | pkg/analyzer/analyzer.go:96-105 | the removal and deprecation messages differ at the word after `<api>:<kind> is `, so the verdict is readable from the message |
| AnalyzerProperties.WordAt | pkg/analyzer/analyzer.go:96-105 | the first character of a word inside a concatenation sits right after the head |
| AnalyzerProperties.ScanFindsRecord | pkg/analyzer/analyzer.go:89-109 | over a table without duplicate keys, the scan gives exactly the report of the record with the reference's key |
| AnalyzerProperties.ScanWithoutRecord | pkg/analyzer/analyzer.go:89-92 | a reference whose key no record has is not reported |
| AnalyzerProperties.ScanAgreesWithMap | pkg/analyzer/analyzer.go:88-109 | the linear scan and a lookup in the map built by GetDeprecationMap give the same diagnostic |
| AnalyzerProperties.NodesDiagnosticsAppend | pkg/analyzer/analyzer.go:68-111 | the diagnostics of consecutive node runs concatenate, in traversal order |
| AnalyzerProperties.AtMostOnePerNode | pkg/analyzer/analyzer.go:99-107 | the scan stops at the first report, so there are never more diagnostics than nodes |
| AnalyzerProperties.NothingBeforeEarliestThreshold | pkg/analyzer/analyzer.go:39-115 | when every record's thresholds are at or after v, a run with a target before v reports nothing |
| AnalyzerProperties.NoNodeReported | pkg/analyzer/analyzer.go:68-111 | the same for the nodes of one file |
| AnalyzerProperties.Parses1_8_0 | pkg/analyzer/analyzer_test.go:10 | `v1.8.0` is valid and denotes 1.8.0 |
| AnalyzerProperties.Parses1_15_0 | pkg/analyzer/analyzer_test.go:15 | `v1.15.0` is valid and denotes 1.15.0 |
| AnalyzerProperties.TargetV1_8_0ReportsNothing | pkg/analyzer/analyzer_test.go:9-12 | with target v1.8.0 a run over any files with the real table reports nothing |
| AnalyzerProperties.EmptyThresholdFiresAsWritten | pkg/analyzer/analyzer.go:93-101 | with the source's test, an empty threshold is reached by every valid target; with the corrected test it never is |
| AnalyzerProperties.ReachedAgreesOnValidThresholds | pkg/analyzer/analyzer.go:93-101 | the source's test and the corrected one agree on every valid threshold |
| AnalyzerProperties.DecideAgreesWhenThresholdsPresent | pkg/analyzer/analyzer.go:93-108 | for a record with both thresholds present the source's decision and the corrected one coincide |
| AnalyzerProperties.AppsDeploymentRecord | pkg/analyzer/version_list.go:43 | the first record is `apps/v1` Deployment with no thresholds and no replacement |
| AnalyzerProperties.UnchangedAPIReportedAsWritten | pkg/analyzer/analyzer.go:93-99 | with the source's test, apps/v1 Deployment is reported as removed for every valid target with the message `apps/v1:Deployment is removed in . Migrate to :Deployment.`; with the corrected test it is not reported |
| AnalyzerProperties.RenamedStep | pkg/analyzer/analyzer.go:58-65 | adding one import, renamed from `a` to a fresh `b`, keeps the second map the first with the entry of `a` moved to `b` |
| AnalyzerProperties.ImportMapOfSnoc | pkg/analyzer/analyzer.go:47-66 | the map of imports ending with one more import is the earlier map updated by that import |
| AnalyzerProperties.RenamedImportMap | pkg/analyzer/analyzer.go:44-66 | renaming an explicit alias `a` to a name no Kubernetes import binds moves the map entry of `a` to `b` and leaves every other entry unchanged |
| AnalyzerProperties.RenamedCandidate | pkg/analyzer/analyzer.go:74-85 | a node written with `b` instead of `a` yields, under the renamed map, the same candidate as the original node under the original map |
| AnalyzerProperties.RenamedNodesDiagnostics | pkg/analyzer/analyzer.go:68-111 | renaming the selector bases changes no diagnostic of a node sequence |
| AnalyzerProperties.AliasIndependence | pkg/analyzer/analyzer.go:44-111 | renaming an import's explicit alias `a` to a name the file does not use, in the import and every selector written with it, leaves the file's diagnostics unchanged: what fires depends on the import path, not on the alias |
| AnalyzerTestdata.FmtImportIgnored | pkg/analyzer/testdata/src/deprecation/a.go:4 | the `fmt` import is not a Kubernetes API import |
| AnalyzerTestdata.AppsImportBinds | pkg/analyzer/testdata/src/deprecation/a.go:6 | `v1 "k8s.io/api/apps/v1"` binds `v1` to `apps/v1` |
| AnalyzerTestdata.ExtensionsImportBinds | pkg/analyzer/testdata/src/deprecation/a.go:7 | `ext "k8s.io/api/extensions/v1beta1"` binds `ext` to `extensions/v1beta1` |
| AnalyzerTestdata.TestImportMap | pkg/analyzer/testdata/src/deprecation/a.go:3-8 | the test package's alias map is exactly `v1 -> apps/v1, ext -> extensions/v1beta1` |
| AnalyzerTestdata.ExtReference | pkg/analyzer/testdata/src/deprecation/a.go:11 | an `ext.DaemonSet` reference gets the report of the extensions/v1beta1 DaemonSet record, if it fires |
| AnalyzerTestdata.AppsReference | pkg/analyzer/testdata/src/deprecation/a.go:15 | a `v1.DaemonSet` reference is never reported |
| AnalyzerTestdata.FmtReference | pkg/analyzer/testdata/src/deprecation/a.go:24 | a `fmt.Println` reference is never reported |
| AnalyzerTestdata.ThreeNodes | pkg/analyzer/analyzer.go:68-111 | three consecutive nodes give their diagnostics in order |
| AnalyzerTestdata.FourPieces | pkg/analyzer/analyzer.go:68-111 | four consecutive node runs give their diagnostics in order |
| AnalyzerTestdata.FirstPiece | pkg/analyzer/testdata/src/deprecation/a.go:10-15 | the first three selectors of the test file give the two `ext` reports |
| AnalyzerTestdata.SecondPiece | pkg/analyzer/testdata/src/deprecation/a.go:16-22 | the next three give the two `ext` reports at lines 19 and 22 |
| AnalyzerTestdata.ThirdPiece | pkg/analyzer/testdata/src/deprecation/a.go:23-25 | the next three (`v1.DaemonSet`, `fmt.Println` twice) give nothing |
| AnalyzerTestdata.FourthPiece | pkg/analyzer/testdata/src/deprecation/a.go:28 | the last two give the two reports on line 28 |
| AnalyzerTestdata.TestFileReports | pkg/analyzer/testdata/src/deprecation/a.go:1-30 | over any table holding the ext DaemonSet record and no apps/v1 DaemonSet record, the test file gives that record's report at exactly its six `ext.DaemonSet` positions |
| AnalyzerTestdata.RecordTableIsTestTable | pkg/analyzer/version_list.go:41-87 | the real table has the extensions/v1beta1 DaemonSet record at index 11, no apps/v1 DaemonSet record and no duplicate keys |
| AnalyzerTestdata.ExtDaemonSetRecord | pkg/analyzer/version_list.go:59 | record 11 is extensions/v1beta1 DaemonSet, deprecated in v1.9.0, removed in v1.16.0, replaced by apps/v1 |
| AnalyzerTestdata.DecideByVersions | pkg/analyzer/analyzer.go:93-108 | for a record with both thresholds, the decision is fixed by comparing the parsed target with the parsed thresholds |
| AnalyzerTestdata.ExtDaemonSetVersions | pkg/analyzer/version_list.go:59 | the record's thresholds denote 1.9.0 and 1.16.0 |
| AnalyzerTestdata.ExtDaemonSetAt1_8_0 | pkg/analyzer/analyzer_test.go:9-12 | at v1.8.0 the ext DaemonSet record does not fire |
| AnalyzerTestdata.ExtDaemonSetAt1_15_0 | pkg/analyzer/analyzer_test.go:14-17 | at v1.15.0 the record is deprecated (unless deprecation is ignored) |
| AnalyzerTestdata.ExtDaemonSetAt1_16_0 | pkg/analyzer/analyzer_test.go:19-22 | at v1.16.0 the record is removed (unless removal is ignored) |
| AnalyzerTestdata.ExtDaemonSetAt1_17_0 | pkg/analyzer/analyzer_test.go:24-27 | at v1.17.0 with removal enabled, the record is removed |
| AnalyzerTestdata.ExtDaemonSetAt1_17_0IgnoringRemoval | pkg/analyzer/analyzer.go:93-101 | at v1.17.0 with removal ignored, the record is reported as deprecated |
| AnalyzerTestdata.SixReportsOf | pkg/analyzer/testdata/src/deprecation/a.go:11-28 | a firing record's report at the six `ext` positions forms the six expected diagnostics |
| AnalyzerTestdata.ExtDaemonSetMessages | pkg/analyzer/testdata/src/deprecation/a.go:11 | the record's messages are `extensions/v1beta1:DaemonSet is deprecated in v1.9.0. Migrate to apps/v1:DaemonSet.` and the `is removed in v1.16.0` counterpart |
| AnalyzerTestdata.TestFileOnRecordTable | pkg/analyzer/testdata/src/deprecation/a.go:1-30 | over the real table, the test file's diagnostics are the ext DaemonSet record's report at the six `ext` positions |
| AnalyzerTestdata.OkTest | pkg/analyzer/testdata/src/ok/a.go:1-30 | with target v1.8.0 the test file gives no diagnostic |
| AnalyzerTestdata.DeprecationTest | pkg/analyzer/testdata/src/deprecation/a.go:1-30 | with target v1.15.0 the test file gives the deprecation message at each of the six `want` positions and nowhere else |
| AnalyzerTestdata.RemovalTest | pkg/analyzer/testdata/src/removal/a.go:1-30 | with target v1.16.0 the test file gives the removal message at each of the six `want` positions and nowhere else |
| AnalyzerTestdata.LaterTargetTest | pkg/analyzer/analyzer_test.go:24-27 | with target v1.17.0 and the default flags (the setting of the `mix` test), the test file gives the removal message at each of the six `ext.DaemonSet` positions and nowhere else |
| AnalyzerTestdata.IgnoreRemovalTest | pkg/analyzer/analyzer.go:93-101 | with target v1.17.0 and removal ignored, control falls through to the deprecation check and the test file gives the deprecation message at the six positions |

## Left out

- The analysis framework is out of scope. This covers `analysis.Analyzer`, `inspect`, `pass.Report`, the command-line flag registration and `main.go`. Flags are a `Config` value and reports are a returned sequence.
- The syntax tree is out of scope. `ast.Inspect` is abstracted to the sequence of nodes it visits. A node is either a selector expression with an identifier base or anything else. Positions are abstract numbers.
- `foundFact` and the fact machinery are declared but never used by `run`, so they are left out.
- `Semver.Parse` accepts only `vMAJOR.MINOR.PATCH`. The shorthands `v1` and `v1.2`, prerelease tags and build metadata are not modelled. The pass's own thresholds, and the targets in its tests, all have the full form. Any other string is invalid in the model.
- `GoStrings.SplitAfter` models Go's `SplitAfter` for a non-empty separator, returning every piece; the pass only uses the separators `k8s.io/api/` and `core/`. Go's behaviour for an empty separator (one piece per UTF-8 sequence) is not modelled. The pass uses only piece [1], so `APIVersionOf` is the full remainder only when `k8s.io/api/` (or `core/`) does not recur in the path. `SecondPieceIsPrefixOfRest` states the general case.
- The process-wide mutable `deprecationMap` is modelled as the field of a `DeprecationCache` object. Concurrent calls of `GetDeprecationMap` are not modelled.
- `GetDeprecationMap` is not called by `run`, which scans `DeprecationInfoList` directly. `ScanAgreesWithMap` relates the two.
- The record table is a parameter of `Run` and a constant of `DeprecationCache`, rather than a package variable. It is never changed at run time.
- `Analyzer.CheckCandidate` compares against the record's `APIVersion`. analyzer.go:90 names a field `di.Name`, which the `DeprecationInfo` struct at version_list.go:4-10 does not have. The field that evidently fits is `APIVersion`.
- `AnalyzerTestdata.RemovalTest` yields the message format of analyzer.go:96-97, `... is removed in v1.16.0. Migrate to apps/v1:DaemonSet.`. The `want` comments of testdata/src/removal/a.go expect a different wording: `... is removed. Migrate to apps/v1:DaemonSet. {deprecated=v1.9.0, removed=v1.16.0}`. The model follows the code.
- The `mix` package run by analyzer_test.go:24-27 is not part of this model. That test sets only `targetVersion = "v1.17.0"` and leaves both `ignoreRemoval` and `ignoreDeprecation` false. `AnalyzerTestdata.LaterTargetTest` states that setting on the package shared by the other tests. `AnalyzerTestdata.IgnoreRemovalTest` is a separate case that no repository test exercises: the same target with `ignoreRemoval` set.
- With `ignoreRemoval` set, the code falls through to the deprecation check (analyzer.go:93-101). So a removed API is still reported as deprecated (`IgnoreRemovalFallsThrough`). A reading in which `ignoreRemoval` silences such a record entirely is not what the code does.
- The API version is read off the import path, so records keyed by a group name such as `storage.k8s.io/v1beta1` or `rbac.authorization.k8s.io/v1alpha1` match only an import written `k8s.io/api/<group>.k8s.io/<version>`. The model keeps this as written. Whether the Kubernetes API packages are laid out under such paths is not part of this model, so it is not claimed as a defect.

## Findings

| source | as written | input that shows it | evidently intended | confidence | as-written member | corrected member |
|---|---|---|---|---|---|---|
| pkg/analyzer/analyzer.go:93-101 | `semver.Compare(targetVersion, di.RemovedIn) >= 0` with an empty `RemovedIn` (likewise `DeprecatedIn`); `semver.Compare` ranks the invalid empty string below every valid version, so an empty threshold counts as reached | target `v1.8.0`, file importing `v1 "k8s.io/api/apps/v1"` and mentioning `v1.Deployment` (record at version_list.go:43, all thresholds empty): reported `apps/v1:Deployment is removed in . Migrate to :Deployment.` | an empty threshold means "not deprecated" / "not removed" and never fires | high (not executed) | AnalyzerProperties.UnchangedAPIReportedAsWritten | AnalyzerProperties.DecideAgreesWhenThresholdsPresent |

`Analyzer.ReachedAsWritten` and `Analyzer.DecideAsWritten` model the test as
written; `AnalyzerProperties.EmptyThresholdFiresAsWritten` shows it firing on
an empty threshold for every valid target. `Analyzer.Reached` and
`Analyzer.Decide` add the presence test and are what the rest of the model
uses; `AnalyzerProperties.TargetV1_8_0ReportsNothing` is the corrected
property over the real table, and `DecideAgreesWhenThresholdsPresent` shows
the correction changes nothing for records that have both thresholds.
