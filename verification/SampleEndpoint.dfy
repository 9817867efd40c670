/**
 The declaration of the storage listing (`internal/api/registry_storage.go`): an endpoint
 the registry accepts and whose gate resolves a cluster, so that the theorems about such
 endpoints speak of one that ships.
 */
module SampleEndpoint {
  import opened Options
  import opened Text
  import opened Uploads
  import opened DeclaredPath
  import opened Endpoints
  import opened Registry
  import opened GateAgreement

  const BEFORE := "/api/v1/clusters/"
  const AFTER := "/storage"
  const LIST_PATH := BEFORE + ":" + CLUSTER_ID + AFTER

  const VIEW_STORAGE := Check("view", "storage", ClusterScope)
  const CLUSTER_PROPERTY := Property(StringKind, false, None, "uuid", "", "", AutoSource, None)
  const CLUSTER_PARAM := Param(CLUSTER_ID, CLUSTER_PROPERTY)
  const PERMISSIONS := Permissions(Some(VIEW_STORAGE), [], [], "", None, "", "")

  function StorageList(path: string): Endpoint {
    Endpoint("GET", path, "List the storage pools", "Storage", PERMISSIONS, "", "", [CLUSTER_PARAM], false, true, map[])
  }

  /** A path with one placeholder between two parts that have none. */
  lemma {:induction false} OnePlaceholder(pre: string, name: string, post: string)
    requires Free(pre, ':') && Free(post, ':') && PlainName(name) && (post != "" ==> !IsNameChar(post[0]))
    ensures PathNames(pre + ":" + name + post) == [name]
  {
    var path, i := pre + ":" + name + post, |pre|;
    var j := i + 1 + |name|;
    NoColonsInRun(path, 0, i);
    assert path[i] == ':' && path[i + 1] == name[0];
    assert forall k :: i + 1 <= k < j ==> IsNameChar(path[k]);
    assert j < |path| ==> path[j] == post[0];
    assert RunEnd(path, i + 1) == j;
    assert path[i + 1..j] == name;
    NoColonsInRun(path, i + 1, |path|);
  }

  lemma {:induction false} PartsOfTheListPath()
    ensures Free(BEFORE, ':') && Free(AFTER, ':') && PlainName(CLUSTER_ID) && !IsNameChar(AFTER[0])
    ensures HasPrefix(BEFORE, PATH_PREFIX)
    ensures forall k :: 0 <= k < |BEFORE| ==> !IsRefusedSyntax(BEFORE[k])
    ensures forall k :: 0 <= k < |AFTER| ==> !IsRefusedSyntax(AFTER[k])
    ensures forall k :: 0 <= k < |CLUSTER_ID| ==> !IsRefusedSyntax(CLUSTER_ID[k])
  {}

  lemma {:induction false} FoldsToItself(s: string)
    ensures EqualFold(s, s)
  {}

  lemma {:induction false} BasicsHold(path: string)
    requires HasPrefix(path, PATH_PREFIX)
    ensures forall r: Rule :: r in TEXT_RULES + CALLER_RULES ==> Keeps(StorageList(path), {}, r)
  {}

  lemma {:induction false} PathRulesHold(path: string)
    requires PathNames(path) == [CLUSTER_ID] && forall k :: 0 <= k < |path| ==> !IsRefusedSyntax(path[k])
    ensures PathParamsAgree(StorageList(path))
  {
    var e := StorageList(path);
    assert e.parameters == [CLUSTER_PARAM];
    assert Lookup(e.parameters, CLUSTER_ID) == Some(CLUSTER_PROPERTY);
    assert ResolveSource(CLUSTER_ID, CLUSTER_PROPERTY, e.verb, PathNames(path)) == PathSource;
  }

  lemma {:induction false} PermissionsHold(path: string)
    ensures ValidPermissions(PERMISSIONS, path, [CLUSTER_ID])
  {
    FoldsToItself(CLUSTER_ID);
    assert NamesACluster([CLUSTER_ID], path);
  }

  lemma {:induction false} RulesHold(path: string)
    requires HasPrefix(path, PATH_PREFIX)
    requires PathNames(path) == [CLUSTER_ID] && forall k :: 0 <= k < |path| ==> !IsRefusedSyntax(path[k])
    ensures Accepted(StorageList(path))
  {
    BasicsHold(path);
    PathRulesHold(path);
    PermissionsHold(path);
    FoldsToItself(CLUSTER_ID);
    forall r: Rule ensures Keeps(StorageList(path), {}, r) {
      EveryRuleIsAsked(r);
    }
  }

  /** It is accepted, it runs a cluster gate, and its parameter claims to be the cluster. */
  lemma {:induction false} StorageListIsAccepted()
    ensures Accepted(StorageList(LIST_PATH)) && RunsClusterGate(StorageList(LIST_PATH).permissions)
    ensures CLUSTER_PARAM in StorageList(LIST_PATH).parameters && ClaimsCluster(StorageList(LIST_PATH), CLUSTER_PARAM)
  {
    PartsOfTheListPath();
    OnePlaceholder(BEFORE, CLUSTER_ID, AFTER);
    FoldsToItself(CLUSTER_ID);
    RulesHold(LIST_PATH);
  }
}
