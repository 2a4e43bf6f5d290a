/** The deprecation knowledge base: one record per (API version, kind) with
    its deprecation and removal thresholds and its replacement, the static
    table of records, and the lazily built map keyed by (API version, kind). */
module VersionList {
  import opened Wrappers
  import Semver

  /** A deprecation/removal record. An empty threshold means "none"; an
      empty replacement means "no successor". */
  datatype DeprecationInfo = DeprecationInfo(
    apiVersion: string,
    kind: string,
    deprecatedIn: string,
    removedIn: string,
    replacementAPI: string)

  datatype DeprecationKey = DeprecationKey(apiVersion: string, kind: string)

  function KeyOf(info: DeprecationInfo): DeprecationKey {
    DeprecationKey(info.apiVersion, info.kind)
  }

  /** The static table of records. */
  const DeprecationInfoList: seq<DeprecationInfo> := [
    // Not removed or deprecated
    DeprecationInfo("apps/v1", "Deployment", "", "", ""),
    DeprecationInfo("networking.k8s.io/v1", "NetworkPolicy", "", "", ""),
    DeprecationInfo("policy/v1beta1", "PodSecurityPolicy", "", "", ""),

    // Removed in 1.16
    DeprecationInfo("extensions/v1beta1", "Deployment", "v1.9.0", "v1.16.0", "apps/v1"),
    DeprecationInfo("apps/v1beta2", "Deployment", "v1.9.0", "v1.16.0", "apps/v1"),
    DeprecationInfo("apps/v1beta1", "Deployment", "v1.9.0", "v1.16.0", "apps/v1"),

    DeprecationInfo("apps/v1beta1", "StatefulSet", "v1.9.0", "v1.16.0", "apps/v1"),
    DeprecationInfo("apps/v1beta2", "StatefulSet", "v1.9.0", "v1.16.0", "apps/v1"),

    DeprecationInfo("extensions/v1beta1", "NetworkPolicy", "v1.9.0", "v1.16.0", "networking.k8s.io/v1"),
    DeprecationInfo("extensions/v1beta1", "Ingress", "v1.14.0", "v1.22.0", "networking.k8s.io/v1beta1"),

    DeprecationInfo("apps/v1beta2", "DaemonSet", "v1.9.0", "v1.16.0", "apps/v1"),
    DeprecationInfo("extensions/v1beta1", "DaemonSet", "v1.9.0", "v1.16.0", "apps/v1"),

    DeprecationInfo("extensions/v1beta1", "PodSecurityPolicy", "v1.10.0", "v1.16.0", "policy/v1beta1"),

    DeprecationInfo("extensions/v1beta1", "ReplicaSet", "", "v1.16.0", "apps/v1"),
    DeprecationInfo("apps/v1beta1", "ReplicaSet", "", "v1.16.0", "apps/v1"),
    DeprecationInfo("apps/v1beta2", "ReplicaSet", "", "v1.16.0", "apps/v1"),

    // Removed in 1.17
    DeprecationInfo("scheduling.k8s.io/v1beta1", "PriorityClass", "v1.14.0", "v1.17.0", "scheduling.k8s.io/v1"),
    DeprecationInfo("scheduling.k8s.io/v1alpha1", "PriorityClass", "v1.14.0", "v1.17.0", "scheduling.k8s.io/v1"),
    DeprecationInfo("apiextensions.k8s.io/v1beta1", "CustomResourceDefinition", "v1.16.0", "v1.19.0", "apiextensions.k8s.io/v1"),

    // Removed in 1.19
    DeprecationInfo("admissionregistration.k8s.io/v1beta1", "MutatingWebhookConfiguration", "v1.16.0", "v1.19.0", "admissionregistration.k8s.io/v1"),

    // Removed in 1.20
    DeprecationInfo("rbac.authorization.k8s.io/v1alpha1", "ClusterRoleBinding", "v1.17.0", "v1.20.0", "rbac.authorization.k8s.io/v1"),
    DeprecationInfo("rbac.authorization.k8s.io/v1alpha1", "ClusterRole", "v1.17.0", "v1.20.0", "rbac.authorization.k8s.io/v1"),
    DeprecationInfo("rbac.authorization.k8s.io/v1alpha1", "ClusterRoleBindingList", "v1.17.0", "v1.20.0", "rbac.authorization.k8s.io/v1"),
    DeprecationInfo("rbac.authorization.k8s.io/v1alpha1", "ClusterRoleList", "v1.17.0", "v1.20.0", "rbac.authorization.k8s.io/v1"),
    DeprecationInfo("rbac.authorization.k8s.io/v1alpha1", "Role", "v1.17.0", "v1.20.0", "rbac.authorization.k8s.io/v1"),
    DeprecationInfo("rbac.authorization.k8s.io/v1alpha1", "RoleBinding", "v1.17.0", "v1.20.0", "rbac.authorization.k8s.io/v1"),
    DeprecationInfo("rbac.authorization.k8s.io/v1alpha1", "RoleList", "v1.17.0", "v1.20.0", "rbac.authorization.k8s.io/v1"),
    DeprecationInfo("rbac.authorization.k8s.io/v1alpha1", "RoleBindingList", "v1.17.0", "v1.20.0", "rbac.authorization.k8s.io/v1"),

    // Unknown removal, but deprecated
    DeprecationInfo("storage.k8s.io/v1beta1", "CSINode", "v1.17.0", "", "")
  ]

  /** No two records share a key. */
  ghost predicate NoDuplicateKeys(list: seq<DeprecationInfo>) {
    forall i, j :: 0 <= i < j < |list| ==> KeyOf(list[i]) != KeyOf(list[j])
  }

  /** The record at `k` has a key that no later record has. */
  ghost predicate KeyUniqueAfter(list: seq<DeprecationInfo>, k: nat) {
    forall j :: k < j < |list| ==> KeyOf(list[k]) != KeyOf(list[j])
  }

  // The rows of the table are checked in blocks so that each proof stays small.

  lemma TableRowsUnique0(k: nat)
    requires k < 3
    ensures KeyUniqueAfter(DeprecationInfoList, k)
  {
  }

  lemma TableRowsUnique3(k: nat)
    requires 3 <= k < 6
    ensures KeyUniqueAfter(DeprecationInfoList, k)
  {
  }

  lemma TableRowsUnique6(k: nat)
    requires 6 <= k < 10
    ensures KeyUniqueAfter(DeprecationInfoList, k)
  {
  }

  lemma TableRowsUnique10(k: nat)
    requires 10 <= k < 15
    ensures KeyUniqueAfter(DeprecationInfoList, k)
  {
  }

  lemma TableRowsUnique15(k: nat)
    requires 15 <= k < |DeprecationInfoList|
    ensures KeyUniqueAfter(DeprecationInfoList, k)
  {
  }

  lemma NoDuplicatesFromRows(list: seq<DeprecationInfo>)
    requires forall k :: 0 <= k < |list| ==> KeyUniqueAfter(list, k)
    ensures NoDuplicateKeys(list)
  {
    forall i, j | 0 <= i < j < |list|
      ensures KeyOf(list[i]) != KeyOf(list[j])
    {
      assert KeyUniqueAfter(list, i);
    }
  }

  /** The table has no duplicate (API version, kind) pair. */
  lemma TableHasNoDuplicateKeys()
    ensures NoDuplicateKeys(DeprecationInfoList)
  {
    forall k | 0 <= k < |DeprecationInfoList|
      ensures KeyUniqueAfter(DeprecationInfoList, k)
    {
      if k < 3 {
        TableRowsUnique0(k);
      } else if k < 6 {
        TableRowsUnique3(k);
      } else if k < 10 {
        TableRowsUnique6(k);
      } else if k < 15 {
        TableRowsUnique10(k);
      } else {
        TableRowsUnique15(k);
      }
    }
    NoDuplicatesFromRows(DeprecationInfoList);
  }

  /** An absent threshold, or one in `vMAJOR.MINOR.PATCH` form. */
  predicate ValidOrAbsent(threshold: string) {
    threshold == "" || Semver.IsValid(threshold)
  }

  /** Both thresholds are absent or valid, and when both are present the
      deprecation comes no later than the removal. */
  predicate WellFormedThresholds(info: DeprecationInfo) {
    && ValidOrAbsent(info.deprecatedIn)
    && ValidOrAbsent(info.removedIn)
    && (info.deprecatedIn != "" && info.removedIn != "" ==> Semver.AtMost(info.deprecatedIn, info.removedIn))
  }

  // Each printed version that occurs as a threshold in the table parses to
  // the version it spells.

  lemma Parses1_9_0()
    ensures Semver.Parse("v1.9.0") == Some(Semver.Version(1, 9, 0))
  {
    Semver.DigitChars();
    Semver.ParseFormat(Semver.Version(1, 9, 0));
    assert Semver.Format(Semver.Version(1, 9, 0)) == "v1.9.0";
  }

  lemma Parses1_10_0()
    ensures Semver.Parse("v1.10.0") == Some(Semver.Version(1, 10, 0))
  {
    Semver.DigitChars();
    Semver.ParseFormat(Semver.Version(1, 10, 0));
    assert Semver.NatToString(10) == "10";
    assert Semver.Format(Semver.Version(1, 10, 0)) == "v1.10.0";
  }

  lemma Parses1_14_0()
    ensures Semver.Parse("v1.14.0") == Some(Semver.Version(1, 14, 0))
  {
    Semver.DigitChars();
    Semver.ParseFormat(Semver.Version(1, 14, 0));
    assert Semver.NatToString(14) == "14";
    assert Semver.Format(Semver.Version(1, 14, 0)) == "v1.14.0";
  }

  lemma Parses1_16_0()
    ensures Semver.Parse("v1.16.0") == Some(Semver.Version(1, 16, 0))
  {
    Semver.DigitChars();
    Semver.ParseFormat(Semver.Version(1, 16, 0));
    assert Semver.NatToString(16) == "16";
    assert Semver.Format(Semver.Version(1, 16, 0)) == "v1.16.0";
  }

  lemma Parses1_17_0()
    ensures Semver.Parse("v1.17.0") == Some(Semver.Version(1, 17, 0))
  {
    Semver.DigitChars();
    Semver.ParseFormat(Semver.Version(1, 17, 0));
    assert Semver.NatToString(17) == "17";
    assert Semver.Format(Semver.Version(1, 17, 0)) == "v1.17.0";
  }

  lemma Parses1_19_0()
    ensures Semver.Parse("v1.19.0") == Some(Semver.Version(1, 19, 0))
  {
    Semver.DigitChars();
    Semver.ParseFormat(Semver.Version(1, 19, 0));
    assert Semver.NatToString(19) == "19";
    assert Semver.Format(Semver.Version(1, 19, 0)) == "v1.19.0";
  }

  lemma Parses1_20_0()
    ensures Semver.Parse("v1.20.0") == Some(Semver.Version(1, 20, 0))
  {
    Semver.DigitChars();
    Semver.ParseFormat(Semver.Version(1, 20, 0));
    assert Semver.NatToString(20) == "20";
    assert Semver.Format(Semver.Version(1, 20, 0)) == "v1.20.0";
  }

  lemma Parses1_22_0()
    ensures Semver.Parse("v1.22.0") == Some(Semver.Version(1, 22, 0))
  {
    Semver.DigitChars();
    Semver.ParseFormat(Semver.Version(1, 22, 0));
    assert Semver.NatToString(22) == "22";
    assert Semver.Format(Semver.Version(1, 22, 0)) == "v1.22.0";
  }

  /** The (deprecatedIn, removedIn) pairs that occur in the table. */
  const ThresholdPairs: seq<(string, string)> := [
    ("", ""),
    ("v1.9.0", "v1.16.0"),
    ("v1.14.0", "v1.22.0"),
    ("v1.10.0", "v1.16.0"),
    ("", "v1.16.0"),
    ("v1.14.0", "v1.17.0"),
    ("v1.16.0", "v1.19.0"),
    ("v1.17.0", "v1.20.0"),
    ("v1.17.0", "")
  ]

  lemma TableUsesKnownThresholdPairs()
    ensures forall k :: 0 <= k < |DeprecationInfoList| ==>
      (DeprecationInfoList[k].deprecatedIn, DeprecationInfoList[k].removedIn) in ThresholdPairs
  {
  }

  /** Every threshold present is at or after version `v`. */
  predicate ThresholdsNotBefore(info: DeprecationInfo, v: string) {
    && (info.deprecatedIn == "" || Semver.AtMost(v, info.deprecatedIn))
    && (info.removedIn == "" || Semver.AtMost(v, info.removedIn))
  }

  /** The threshold pairs that occur in the table are well formed, and none
      is earlier than v1.9.0. */
  lemma ThresholdPairsWellFormed(info: DeprecationInfo)
    requires (info.deprecatedIn, info.removedIn) in ThresholdPairs
    ensures WellFormedThresholds(info)
    ensures ThresholdsNotBefore(info, "v1.9.0")
  {
    Parses1_9_0();
    if (info.deprecatedIn, info.removedIn) == ("", "") {
    } else if (info.deprecatedIn, info.removedIn) == ("v1.9.0", "v1.16.0") {
      Parses1_16_0();
    } else if (info.deprecatedIn, info.removedIn) == ("v1.14.0", "v1.22.0") {
      Parses1_14_0();
      Parses1_22_0();
    } else if (info.deprecatedIn, info.removedIn) == ("v1.10.0", "v1.16.0") {
      Parses1_10_0();
      Parses1_16_0();
    } else if (info.deprecatedIn, info.removedIn) == ("", "v1.16.0") {
      Parses1_16_0();
    } else if (info.deprecatedIn, info.removedIn) == ("v1.14.0", "v1.17.0") {
      Parses1_14_0();
      Parses1_17_0();
    } else if (info.deprecatedIn, info.removedIn) == ("v1.16.0", "v1.19.0") {
      Parses1_16_0();
      Parses1_19_0();
    } else if (info.deprecatedIn, info.removedIn) == ("v1.17.0", "v1.20.0") {
      Parses1_17_0();
      Parses1_20_0();
    } else if (info.deprecatedIn, info.removedIn) == ("v1.17.0", "") {
      Parses1_17_0();
    }
  }

  /** A list whose threshold pairs all occur in ThresholdPairs is well formed. */
  lemma WellFormedFromKnownPairs(list: seq<DeprecationInfo>)
    requires forall k :: 0 <= k < |list| ==> (list[k].deprecatedIn, list[k].removedIn) in ThresholdPairs
    ensures forall k :: 0 <= k < |list| ==> WellFormedThresholds(list[k])
    ensures forall k :: 0 <= k < |list| ==> ThresholdsNotBefore(list[k], "v1.9.0")
  {
    forall k | 0 <= k < |list|
      ensures WellFormedThresholds(list[k]) && ThresholdsNotBefore(list[k], "v1.9.0")
    {
      ThresholdPairsWellFormed(list[k]);
    }
  }

  /** Every threshold in the table is absent or `vMAJOR.MINOR.PATCH`, a
      record's deprecation never comes after its removal, and no threshold is
      earlier than v1.9.0. */
  lemma TableThresholdsWellFormed()
    ensures forall i :: 0 <= i < |DeprecationInfoList| ==> WellFormedThresholds(DeprecationInfoList[i])
    ensures forall i :: 0 <= i < |DeprecationInfoList| ==> ThresholdsNotBefore(DeprecationInfoList[i], "v1.9.0")
  {
    TableUsesKnownThresholdPairs();
    WellFormedFromKnownPairs(DeprecationInfoList);
  }

  /** The map built from `list` key by key, a later record overwriting an
      earlier one with the same key: what the loop of GetDeprecationMap
      leaves behind. */
  function BuildMap(list: seq<DeprecationInfo>): (m: map<DeprecationKey, DeprecationInfo>)
    ensures forall k :: k in m ==> KeyOf(m[k]) == k && m[k] in list
  {
    if list == [] then map[]
    else
      var last := list[|list| - 1];
      BuildMap(list[..|list| - 1])[KeyOf(last) := last]
  }

  /** Every record's key is in the map. */
  lemma {:induction false} BuildMapHasEveryKey(list: seq<DeprecationInfo>, i: nat)
    requires i < |list|
    ensures KeyOf(list[i]) in BuildMap(list)
    decreases |list|
  {
    if i < |list| - 1 {
      BuildMapHasEveryKey(list[..|list| - 1], i);
    }
  }

  /** A key that no record has is not in the map. */
  lemma BuildMapHasNoOtherKey(list: seq<DeprecationInfo>, key: DeprecationKey)
    requires forall i :: 0 <= i < |list| ==> KeyOf(list[i]) != key
    ensures key !in BuildMap(list)
  {
  }

  /** The map holds, for a key, the last record with that key. */
  lemma {:induction false} BuildMapLastWins(list: seq<DeprecationInfo>, i: nat)
    requires i < |list|
    requires forall j :: i < j < |list| ==> KeyOf(list[j]) != KeyOf(list[i])
    ensures KeyOf(list[i]) in BuildMap(list) && BuildMap(list)[KeyOf(list[i])] == list[i]
    decreases |list|
  {
    if i < |list| - 1 {
      var init := list[..|list| - 1];
      forall j | i < j < |init|
        ensures KeyOf(init[j]) != KeyOf(init[i])
      {
        assert init[j] == list[j];
      }
      BuildMapLastWins(init, i);
    }
  }

  /** Without duplicate keys, the map holds every record under its own key. */
  lemma BuildMapLookup(list: seq<DeprecationInfo>, i: nat)
    requires NoDuplicateKeys(list) && i < |list|
    ensures KeyOf(list[i]) in BuildMap(list) && BuildMap(list)[KeyOf(list[i])] == list[i]
  {
    BuildMapLastWins(list, i);
  }

  /** The package-level cache behind GetDeprecationMap: absent (nil) until the
      first call, then the map built from the record list. The list is the one
      the cache was created with (DeprecationInfoList in the analyzer). */
  class DeprecationCache {
    const infoList: seq<DeprecationInfo>
    var deprecationMap: Option<map<DeprecationKey, DeprecationInfo>>

    ghost predicate Valid()
      reads this
    {
      deprecationMap.None? || deprecationMap == Some(BuildMap(infoList))
    }

    constructor (infoList: seq<DeprecationInfo>)
      ensures Valid() && this.infoList == infoList && deprecationMap == None
    {
      this.infoList := infoList;
      deprecationMap := None;
    }

    /** Returns the cached map, building it on the first call. */
    method GetDeprecationMap() returns (m: map<DeprecationKey, DeprecationInfo>)
      requires Valid()
      modifies this
      ensures Valid() && deprecationMap == Some(m)
      ensures m == BuildMap(infoList)
      ensures old(deprecationMap).Some? ==> deprecationMap == old(deprecationMap)
    {
      if deprecationMap.Some? {
        return deprecationMap.value;
      }
      deprecationMap := Some(map[]);
      for i := 0 to |infoList|
        invariant deprecationMap == Some(BuildMap(infoList[..i]))
      {
        var depr := infoList[i];
        var key := DeprecationKey(depr.apiVersion, depr.kind);
        var value := DeprecationInfo(depr.apiVersion, depr.kind, depr.deprecatedIn, depr.removedIn, depr.replacementAPI);
        assert infoList[..i + 1][..i] == infoList[..i];
        deprecationMap := Some(deprecationMap.value[key := value]);
      }
      assert infoList[..|infoList|] == infoList;
      m := deprecationMap.value;
    }
  }
}
